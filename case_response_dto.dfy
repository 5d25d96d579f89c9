/**
 * The stored case hierarchy as the database returns it, and the response the
 * API sends for it. The response copies ids, the identifier, stainings and
 * timestamps level by level, and drops every other stored column (here, the
 * link of each row to its parent).
 */
module CaseResponse {
  import opened Hierarchy

  /** Timestamps are instants, counted in the database clock's ticks. */
  datatype StoredSlide = StoredSlide(id: int, blockId: int, staining: string, createdAt: int, updatedAt: int)
  datatype StoredBlock = StoredBlock(id: int, specimenId: int, createdAt: int, updatedAt: int, slides: seq<StoredSlide>)
  datatype StoredSpecimen = StoredSpecimen(id: int, caseId: int, createdAt: int, updatedAt: int, blocks: seq<StoredBlock>)
  datatype StoredCase = StoredCase(id: int, identifier: string, createdAt: int, updatedAt: int, specimens: seq<StoredSpecimen>)

  datatype SlideResponseDto = SlideResponseDto(id: int, staining: string, createdAt: int, updatedAt: int)
  datatype BlockResponseDto = BlockResponseDto(id: int, createdAt: int, updatedAt: int, slides: seq<SlideResponseDto>)
  datatype SpecimenResponseDto = SpecimenResponseDto(id: int, createdAt: int, updatedAt: int, blocks: seq<BlockResponseDto>)
  datatype CaseResponseDto = CaseResponseDto(
    id: int, identifier: string, createdAt: int, updatedAt: int, specimens: seq<SpecimenResponseDto>)

  function ToSlideResponse(slide: StoredSlide): SlideResponseDto {
    SlideResponseDto(slide.id, slide.staining, slide.createdAt, slide.updatedAt)
  }

  function ToBlockResponse(block: StoredBlock): BlockResponseDto {
    BlockResponseDto(block.id, block.createdAt, block.updatedAt,
      seq(|block.slides|, k requires 0 <= k < |block.slides| => ToSlideResponse(block.slides[k])))
  }

  function ToSpecimenResponse(specimen: StoredSpecimen): SpecimenResponseDto {
    SpecimenResponseDto(specimen.id, specimen.createdAt, specimen.updatedAt,
      seq(|specimen.blocks|, j requires 0 <= j < |specimen.blocks| => ToBlockResponse(specimen.blocks[j])))
  }

  /** `toCaseResponseDto`: the same tree, level by level, with only the listed fields. */
  function ToCaseResponseDto(record: StoredCase): CaseResponseDto {
    CaseResponseDto(record.id, record.identifier, record.createdAt, record.updatedAt,
      seq(|record.specimens|, i requires 0 <= i < |record.specimens| => ToSpecimenResponse(record.specimens[i])))
  }

  /** `toCaseResponseDtoList`: one response per record, in the records' order. */
  function ToCaseResponseDtoList(records: seq<StoredCase>): (responses: seq<CaseResponseDto>)
    ensures |responses| == |records|
    ensures forall i :: 0 <= i < |records| ==>
      responses[i] == ToCaseResponseDto(records[i]) && responses[i].id == records[i].id
  {
    seq(|records|, i requires 0 <= i < |records| => ToCaseResponseDto(records[i]))
  }

  function StoredShape(specimens: seq<StoredSpecimen>): (shape: Shape)
    ensures |shape| == |specimens|
    ensures forall i :: 0 <= i < |specimens| ==> |shape[i]| == |specimens[i].blocks|
    ensures forall i, j :: 0 <= i < |specimens| && 0 <= j < |specimens[i].blocks| ==>
      shape[i][j] == |specimens[i].blocks[j].slides|
  {
    seq(|specimens|, i requires 0 <= i < |specimens| =>
      seq(|specimens[i].blocks|, j requires 0 <= j < |specimens[i].blocks| =>
        |specimens[i].blocks[j].slides|))
  }

  function ResponseShape(specimens: seq<SpecimenResponseDto>): (shape: Shape)
    ensures |shape| == |specimens|
    ensures forall i :: 0 <= i < |specimens| ==> |shape[i]| == |specimens[i].blocks|
    ensures forall i, j :: 0 <= i < |specimens| && 0 <= j < |specimens[i].blocks| ==>
      shape[i][j] == |specimens[i].blocks[j].slides|
  {
    seq(|specimens|, i requires 0 <= i < |specimens| =>
      seq(|specimens[i].blocks|, j requires 0 <= j < |specimens[i].blocks| =>
        |specimens[i].blocks[j].slides|))
  }

  /** Every stored row points at the row that contains it. */
  predicate SlidesLinked(block: StoredBlock) {
    forall k :: 0 <= k < |block.slides| ==> block.slides[k].blockId == block.id
  }

  predicate BlocksLinked(specimen: StoredSpecimen) {
    forall j :: 0 <= j < |specimen.blocks| ==>
      specimen.blocks[j].specimenId == specimen.id && SlidesLinked(specimen.blocks[j])
  }

  predicate Linked(record: StoredCase) {
    forall i :: 0 <= i < |record.specimens| ==>
      record.specimens[i].caseId == record.id && BlocksLinked(record.specimens[i])
  }

  // The inverse of the mapping: each dropped link is the id of the enclosing row.

  function FromBlockResponse(dto: BlockResponseDto, specimenId: int): StoredBlock {
    StoredBlock(dto.id, specimenId, dto.createdAt, dto.updatedAt,
      seq(|dto.slides|, k requires 0 <= k < |dto.slides| =>
        var s := dto.slides[k]; StoredSlide(s.id, dto.id, s.staining, s.createdAt, s.updatedAt)))
  }

  function FromSpecimenResponse(dto: SpecimenResponseDto, caseId: int): StoredSpecimen {
    StoredSpecimen(dto.id, caseId, dto.createdAt, dto.updatedAt,
      seq(|dto.blocks|, j requires 0 <= j < |dto.blocks| => FromBlockResponse(dto.blocks[j], dto.id)))
  }

  function FromCaseResponse(dto: CaseResponseDto): StoredCase {
    StoredCase(dto.id, dto.identifier, dto.createdAt, dto.updatedAt,
      seq(|dto.specimens|, i requires 0 <= i < |dto.specimens| => FromSpecimenResponse(dto.specimens[i], dto.id)))
  }

  lemma BlockRoundTrip(block: StoredBlock)
    requires SlidesLinked(block)
    ensures FromBlockResponse(ToBlockResponse(block), block.specimenId) == block
  {
    var back := FromBlockResponse(ToBlockResponse(block), block.specimenId);
    assert back.slides == block.slides;
  }

  lemma SpecimenRoundTrip(specimen: StoredSpecimen)
    requires BlocksLinked(specimen)
    ensures FromSpecimenResponse(ToSpecimenResponse(specimen), specimen.caseId) == specimen
  {
    var back := FromSpecimenResponse(ToSpecimenResponse(specimen), specimen.caseId);
    forall j | 0 <= j < |specimen.blocks| ensures back.blocks[j] == specimen.blocks[j] {
      BlockRoundTrip(specimen.blocks[j]);
    }
  }

  /**
   * Nothing but the links to the parents is lost: when every row points at its
   * parent, the stored record is recovered from its response.
   */
  lemma ResponseRoundTrip(record: StoredCase)
    requires Linked(record)
    ensures FromCaseResponse(ToCaseResponseDto(record)) == record
  {
    var back := FromCaseResponse(ToCaseResponseDto(record));
    forall i | 0 <= i < |record.specimens| ensures back.specimens[i] == record.specimens[i] {
      SpecimenRoundTrip(record.specimens[i]);
    }
  }

  /** The response has the record's tree, and copies the fields of the case and of every specimen, block and slide. */
  lemma ResponseCopiesFields(record: StoredCase)
    ensures var dto := ToCaseResponseDto(record);
      dto.id == record.id && dto.identifier == record.identifier &&
      dto.createdAt == record.createdAt && dto.updatedAt == record.updatedAt &&
      ResponseShape(dto.specimens) == StoredShape(record.specimens)
    ensures forall i :: 0 <= i < |record.specimens| ==>
      var (s, r) := (record.specimens[i], ToCaseResponseDto(record).specimens[i]);
      r.id == s.id && r.createdAt == s.createdAt && r.updatedAt == s.updatedAt
    ensures forall i, j :: 0 <= i < |record.specimens| && 0 <= j < |record.specimens[i].blocks| ==>
      var (b, r) := (record.specimens[i].blocks[j], ToCaseResponseDto(record).specimens[i].blocks[j]);
      r.id == b.id && r.createdAt == b.createdAt && r.updatedAt == b.updatedAt
    ensures forall i, j, k ::
      0 <= i < |record.specimens| && 0 <= j < |record.specimens[i].blocks| &&
      0 <= k < |record.specimens[i].blocks[j].slides| ==>
        ToCaseResponseDto(record).specimens[i].blocks[j].slides[k] ==
          SlideResponseDto(record.specimens[i].blocks[j].slides[k].id, record.specimens[i].blocks[j].slides[k].staining,
            record.specimens[i].blocks[j].slides[k].createdAt, record.specimens[i].blocks[j].slides[k].updatedAt)
  {
    var dto := ToCaseResponseDto(record);
    var a, b := ResponseShape(dto.specimens), StoredShape(record.specimens);
    forall i | 0 <= i < |a| ensures a[i] == b[i] {
    }
  }
}
