/**
 * The cases repository over an abstract store. The store holds the case rows
 * in creation order, each with its specimens, blocks and slides, and a serial
 * clock that numbers every inserted row and stamps its creation time. Failures
 * of the database that the model does not produce itself are parameters.
 */
module CasesRepository {
  import opened Common
  import opened Strings
  import opened Hierarchy
  import opened CreateCaseDto
  import opened CaseResponse
  import opened PrismaErrors

  const DuplicateIdentifierMessage: string := "A case with the same identifier already exists."
  /** The database's own texts for the two failures the model produces; translation replaces them. */
  const UniqueConstraintText: string := "Unique constraint failed on the fields: (`identifier`)"
  const MissingRecordText: string := "Record to delete does not exist."

  function CaseNotFoundMessage(id: int): string {
    "Case with id " + IntToDecimal(id) + " not found"
  }

  // The nested create input of the database client.
  datatype SlideCreateData = SlideCreateData(staining: string)
  datatype BlockCreateData = BlockCreateData(slides: seq<SlideCreateData>)
  datatype SpecimenCreateData = SpecimenCreateData(blocks: seq<BlockCreateData>)
  datatype CaseCreateData = CaseCreateData(identifier: string, specimens: seq<SpecimenCreateData>)

  function ToBlockCreateData(block: CreateBlockDto): BlockCreateData {
    BlockCreateData(seq(|block.slides|, k requires 0 <= k < |block.slides| => SlideCreateData(block.slides[k].staining)))
  }

  function ToSpecimenCreateData(specimen: CreateSpecimenDto): SpecimenCreateData {
    SpecimenCreateData(seq(|specimen.blocks|, j requires 0 <= j < |specimen.blocks| => ToBlockCreateData(specimen.blocks[j])))
  }

  /** The create data of `createCase`: the identifier and the stainings, nested as in the request. */
  function ToCreateData(dto: CreateCaseDto): CaseCreateData {
    CaseCreateData(dto.identifier,
      seq(|dto.specimens|, i requires 0 <= i < |dto.specimens| => ToSpecimenCreateData(dto.specimens[i])))
  }

  function DataRow(blocks: seq<BlockCreateData>): (row: seq<nat>)
    ensures |row| == |blocks|
    ensures forall j :: 0 <= j < |blocks| ==> row[j] == |blocks[j].slides|
  {
    seq(|blocks|, j requires 0 <= j < |blocks| => |blocks[j].slides|)
  }

  function DataShape(specimens: seq<SpecimenCreateData>): (shape: Shape)
    ensures |shape| == |specimens|
    ensures forall i :: 0 <= i < |specimens| ==> shape[i] == DataRow(specimens[i].blocks)
  {
    seq(|specimens|, i requires 0 <= i < |specimens| => DataRow(specimens[i].blocks))
  }

  /**
   * The rows a nested create inserts. Rows are inserted level by level and in
   * input order, each taking the next tick of the clock as id and creation time.
   */
  function MaterializeSlides(slides: seq<SlideCreateData>, blockId: int, first: int): seq<StoredSlide> {
    seq(|slides|, k requires 0 <= k < |slides| =>
      StoredSlide(first + k, blockId, slides[k].staining, first + k, first + k))
  }

  function MaterializeBlocks(blocks: seq<BlockCreateData>, specimenId: int, firstBlock: int, firstSlide: int): seq<StoredBlock> {
    var row := DataRow(blocks);
    seq(|blocks|, j requires 0 <= j < |blocks| =>
      StoredBlock(firstBlock + j, specimenId, firstBlock + j, firstBlock + j,
        MaterializeSlides(blocks[j].slides, firstBlock + j, firstSlide + RowSlides(row[..j]))))
  }

  function MaterializeSpecimens(specimens: seq<SpecimenCreateData>, caseId: int, first: int, firstBlock: int, firstSlide: int): seq<StoredSpecimen> {
    var shape := DataShape(specimens);
    seq(|specimens|, i requires 0 <= i < |specimens| =>
      StoredSpecimen(first + i, caseId, first + i, first + i,
        MaterializeBlocks(specimens[i].blocks, first + i, firstBlock + ShapeBlocks(shape[..i]), firstSlide + ShapeSlides(shape[..i]))))
  }

  /** The number of rows a create inserts: the case and all its descendants. */
  function RowCount(data: CaseCreateData): nat {
    var shape := DataShape(data.specimens);
    1 + |shape| + ShapeBlocks(shape) + ShapeSlides(shape)
  }

  /** The ids of a create: the case takes `tick`, then come its specimens, then all blocks, then all slides. */
  function FirstBlockId(data: CaseCreateData, tick: int): int {
    tick + 1 + |data.specimens|
  }

  function FirstSlideId(data: CaseCreateData, tick: int): int {
    FirstBlockId(data, tick) + ShapeBlocks(DataShape(data.specimens))
  }

  function Materialize(data: CaseCreateData, tick: int): StoredCase {
    StoredCase(tick, data.identifier, tick, tick,
      MaterializeSpecimens(data.specimens, tick, tick + 1, FirstBlockId(data, tick), FirstSlideId(data, tick)))
  }

  function BlockContent(block: StoredBlock): CreateBlockDto {
    CreateBlockDto(seq(|block.slides|, k requires 0 <= k < |block.slides| => CreateSlideDto(block.slides[k].staining)))
  }

  function SpecimenContent(specimen: StoredSpecimen): CreateSpecimenDto {
    CreateSpecimenDto(seq(|specimen.blocks|, j requires 0 <= j < |specimen.blocks| => BlockContent(specimen.blocks[j])))
  }

  /** What a stored case says about the request that created it: the identifier and the stainings. */
  function Content(record: StoredCase): CreateCaseDto {
    CreateCaseDto(record.identifier,
      seq(|record.specimens|, i requires 0 <= i < |record.specimens| => SpecimenContent(record.specimens[i])))
  }

  /** Siblings come back in creation order at every level. */
  predicate SlidesOrdered(block: StoredBlock) {
    forall k1, k2 :: 0 <= k1 < k2 < |block.slides| ==> block.slides[k1].createdAt < block.slides[k2].createdAt
  }

  predicate BlocksOrdered(specimen: StoredSpecimen) {
    (forall j1, j2 :: 0 <= j1 < j2 < |specimen.blocks| ==> specimen.blocks[j1].createdAt < specimen.blocks[j2].createdAt) &&
    forall j :: 0 <= j < |specimen.blocks| ==> SlidesOrdered(specimen.blocks[j])
  }

  predicate HierarchyOrdered(record: StoredCase) {
    (forall i1, i2 :: 0 <= i1 < i2 < |record.specimens| ==> record.specimens[i1].createdAt < record.specimens[i2].createdAt) &&
    forall i :: 0 <= i < |record.specimens| ==> BlocksOrdered(record.specimens[i])
  }

  lemma MaterializedBlocksWellFormed(blocks: seq<BlockCreateData>, specimenId: int, firstBlock: int, firstSlide: int)
    ensures var stored := MaterializeBlocks(blocks, specimenId, firstBlock, firstSlide);
      (forall j1, j2 :: 0 <= j1 < j2 < |stored| ==> stored[j1].createdAt < stored[j2].createdAt) &&
      forall j :: 0 <= j < |stored| ==> stored[j].specimenId == specimenId && SlidesLinked(stored[j]) && SlidesOrdered(stored[j])
  {
  }

  lemma MaterializedSpecimensWellFormed(specimens: seq<SpecimenCreateData>, caseId: int, first: int, firstBlock: int, firstSlide: int)
    ensures var stored := MaterializeSpecimens(specimens, caseId, first, firstBlock, firstSlide);
      (forall i1, i2 :: 0 <= i1 < i2 < |stored| ==> stored[i1].createdAt < stored[i2].createdAt) &&
      forall i :: 0 <= i < |stored| ==> stored[i].caseId == caseId && BlocksLinked(stored[i]) && BlocksOrdered(stored[i])
  {
    var stored := MaterializeSpecimens(specimens, caseId, first, firstBlock, firstSlide);
    var shape := DataShape(specimens);
    forall i | 0 <= i < |stored| ensures BlocksLinked(stored[i]) && BlocksOrdered(stored[i]) {
      var fb, fs := firstBlock + ShapeBlocks(shape[..i]), firstSlide + ShapeSlides(shape[..i]);
      MaterializedSpecimenAt(specimens, caseId, first, firstBlock, firstSlide, i, fb, fs);
      SpecimenWellFormed(stored[i], specimens[i].blocks, fb, fs);
    }
  }

  lemma SpecimenWellFormed(specimen: StoredSpecimen, blocks: seq<BlockCreateData>, firstBlock: int, firstSlide: int)
    requires specimen.blocks == MaterializeBlocks(blocks, specimen.id, firstBlock, firstSlide)
    ensures BlocksLinked(specimen) && BlocksOrdered(specimen)
  {
    MaterializedBlocksWellFormed(blocks, specimen.id, firstBlock, firstSlide);
  }

  lemma RecordWellFormed(record: StoredCase, specimens: seq<SpecimenCreateData>, first: int, firstBlock: int, firstSlide: int)
    requires record.specimens == MaterializeSpecimens(specimens, record.id, first, firstBlock, firstSlide)
    ensures Linked(record) && HierarchyOrdered(record)
  {
    MaterializedSpecimensWellFormed(specimens, record.id, first, firstBlock, firstSlide);
  }

  /** A created case is linked and ordered. */
  lemma MaterializeWellFormed(data: CaseCreateData, tick: int)
    ensures var m := Materialize(data, tick);
      m.id == tick && m.createdAt == tick && Linked(m) && HierarchyOrdered(m)
  {
    MaterializeHasSpecimens(data, tick);
    RecordWellFormed(Materialize(data, tick), data.specimens, tick + 1, FirstBlockId(data, tick), FirstSlideId(data, tick));
  }

  lemma BlockContentOfCreated(block: CreateBlockDto, stored: StoredBlock, first: int)
    requires stored.slides == MaterializeSlides(ToBlockCreateData(block).slides, stored.id, first)
    ensures BlockContent(stored) == block
  {
  }

  lemma SpecimenContentOfCreated(specimen: CreateSpecimenDto, data: SpecimenCreateData, stored: StoredSpecimen, firstBlock: int, firstSlide: int)
    requires data == ToSpecimenCreateData(specimen)
    requires stored.blocks == MaterializeBlocks(data.blocks, stored.id, firstBlock, firstSlide)
    ensures SpecimenContent(stored) == specimen
  {
    var row := DataRow(data.blocks);
    forall j | 0 <= j < |specimen.blocks| ensures BlockContent(stored.blocks[j]) == specimen.blocks[j] {
      BlockContentOfCreated(specimen.blocks[j], stored.blocks[j], firstSlide + RowSlides(row[..j]));
    }
  }

  lemma MaterializeHasSpecimens(data: CaseCreateData, tick: int)
    ensures Materialize(data, tick).id == tick && Materialize(data, tick).identifier == data.identifier
    ensures Materialize(data, tick).specimens ==
      MaterializeSpecimens(data.specimens, tick, tick + 1, FirstBlockId(data, tick), FirstSlideId(data, tick))
  {
  }

  lemma MaterializedSpecimenAt(specimens: seq<SpecimenCreateData>, caseId: int, first: int, firstBlock: int, firstSlide: int,
                               i: int, blockAt: int, slideAt: int)
    requires 0 <= i < |specimens|
    requires blockAt == firstBlock + ShapeBlocks(DataShape(specimens)[..i])
    requires slideAt == firstSlide + ShapeSlides(DataShape(specimens)[..i])
    ensures var stored := MaterializeSpecimens(specimens, caseId, first, firstBlock, firstSlide);
      |stored| == |specimens| &&
      stored[i].id == first + i &&
      stored[i].blocks == MaterializeBlocks(specimens[i].blocks, first + i, blockAt, slideAt)
  {
  }

  lemma ContentOfSpecimens(dto: CreateCaseDto, record: StoredCase)
    requires record.identifier == dto.identifier && |record.specimens| == |dto.specimens|
    requires forall i :: 0 <= i < |dto.specimens| ==> SpecimenContent(record.specimens[i]) == dto.specimens[i]
    ensures Content(record) == dto
  {
  }

  lemma RecordContent(dto: CreateCaseDto, specimens: seq<SpecimenCreateData>, record: StoredCase,
                      caseId: int, first: int, firstBlock: int, firstSlide: int)
    requires record.identifier == dto.identifier && |specimens| == |dto.specimens|
    requires forall i :: 0 <= i < |dto.specimens| ==> specimens[i] == ToSpecimenCreateData(dto.specimens[i])
    requires record.specimens == MaterializeSpecimens(specimens, caseId, first, firstBlock, firstSlide)
    ensures Content(record) == dto
  {
    var shape := DataShape(specimens);
    forall i | 0 <= i < |dto.specimens| ensures SpecimenContent(record.specimens[i]) == dto.specimens[i] {
      var fb := firstBlock + ShapeBlocks(shape[..i]);
      var fs := firstSlide + ShapeSlides(shape[..i]);
      MaterializedSpecimenAt(specimens, caseId, first, firstBlock, firstSlide, i, fb, fs);
      SpecimenContentOfCreated(dto.specimens[i], specimens[i], record.specimens[i], fb, fs);
    }
    ContentOfSpecimens(dto, record);
  }

  lemma CreatedContentOf(dto: CreateCaseDto, data: CaseCreateData, tick: int)
    requires data.identifier == dto.identifier && |data.specimens| == |dto.specimens|
    requires forall i :: 0 <= i < |dto.specimens| ==> data.specimens[i] == ToSpecimenCreateData(dto.specimens[i])
    ensures Content(Materialize(data, tick)) == dto
  {
    MaterializeHasSpecimens(data, tick);
    RecordContent(dto, data.specimens, Materialize(data, tick), tick, tick + 1, FirstBlockId(data, tick), FirstSlideId(data, tick));
  }

  /** The created case holds exactly the request's identifier and stainings, nested as in the request. */
  lemma CreatedContent(dto: CreateCaseDto, tick: int)
    ensures Content(Materialize(ToCreateData(dto), tick)) == dto
  {
    CreatedContentOf(dto, ToCreateData(dto), tick);
  }

  /** The store's invariant. */
  predicate StoreInvariant(rows: seq<StoredCase>, clock: int) {
    (forall i1, i2 :: 0 <= i1 < i2 < |rows| ==> EarlierRow(rows[i1], rows[i2])) &&
    forall i :: 0 <= i < |rows| ==> RowValid(rows[i], clock)
  }

  /** Of two rows, the earlier one was created first, has the smaller id and another identifier. */
  predicate EarlierRow(a: StoredCase, b: StoredCase) {
    a.createdAt < b.createdAt && a.id < b.id && a.identifier != b.identifier
  }

  /** A row was created before the clock's current tick, and its hierarchy is linked and ordered. */
  predicate RowValid(row: StoredCase, clock: int) {
    row.createdAt < clock && row.id < clock && Linked(row) && HierarchyOrdered(row)
  }

  predicate HasIdentifier(rows: seq<StoredCase>, identifier: string) {
    exists i :: 0 <= i < |rows| && rows[i].identifier == identifier
  }

  predicate HasCaseId(rows: seq<StoredCase>, id: int) {
    exists i :: 0 <= i < |rows| && rows[i].id == id
  }

  function Reverse<T>(s: seq<T>): (r: seq<T>)
    ensures |r| == |s|
    ensures forall i :: 0 <= i < |s| ==> r[i] == s[|s| - 1 - i]
  {
    seq(|s|, i requires 0 <= i < |s| => s[|s| - 1 - i])
  }

  function Lookup(rows: seq<StoredCase>, id: int): Option<StoredCase>
  {
    if rows == [] then None
    else if rows[0].id == id then Some(rows[0])
    else Lookup(rows[1..], id)
  }

  /** The lookup finds a row exactly when one has the id, and what it finds has the id. */
  lemma {:induction false} LookupFinds(rows: seq<StoredCase>, id: int)
    ensures Lookup(rows, id).Some? <==> HasCaseId(rows, id)
    ensures Lookup(rows, id).Some? ==> Lookup(rows, id).value in rows && Lookup(rows, id).value.id == id
  {
    if rows != [] && rows[0].id != id {
      LookupFinds(rows[1..], id);
      if HasCaseId(rows, id) {
        var i :| 0 <= i < |rows| && rows[i].id == id;
        assert rows[1..][i - 1].id == id;
      }
      if HasCaseId(rows[1..], id) {
        var i :| 0 <= i < |rows[1..]| && rows[1..][i].id == id;
        assert rows[i + 1].id == id;
      }
    } else if rows != [] {
      assert rows[0].id == id;
    }
  }

  function OtherId(id: int): StoredCase -> bool {
    (c: StoredCase) => c.id != id
  }

  class CasesRepository {
    /** The case rows, oldest first. */
    var rows: seq<StoredCase>
    /** The next tick of the database clock. */
    var clock: int

    ghost predicate Valid()
      reads this
    {
      StoreInvariant(rows, clock)
    }

    constructor ()
      ensures rows == [] && Valid()
    {
      rows := [];
      clock := 1;
    }

    /**
     * `createCase`: inserts the nested create data and returns the new case
     * with its hierarchy. A failure is translated with the duplicate-identifier
     * message, so a second case with the same identifier is a Conflict.
     */
    method CreateCase(dto: CreateCaseDto, failure: Option<Thrown>) returns (result: Result<StoredCase, ServerError>)
      requires Valid()
      modifies this
      ensures Valid()
      ensures failure.Some? ==>
        result == Err(TranslatePrismaError(failure.value, Some(ErrorContext(Some(DuplicateIdentifierMessage), None)))) &&
        rows == old(rows) && clock == old(clock)
      ensures failure.None? && HasIdentifier(old(rows), dto.identifier) ==>
        result == Err(ConflictException(DuplicateIdentifierMessage)) && rows == old(rows) && clock == old(clock)
      ensures failure.None? && !HasIdentifier(old(rows), dto.identifier) ==>
        result.Ok? && rows == old(rows) + [result.value] && Content(result.value) == dto &&
        Linked(result.value) && HierarchyOrdered(result.value) && clock > old(clock)
    {
      var context := Some(ErrorContext(Some(DuplicateIdentifierMessage), None));
      if failure.Some? {
        return Err(TranslatePrismaError(failure.value, context));
      }
      if HasIdentifier(rows, dto.identifier) {
        var violation := ErrorValue(KnownRequestError(UniqueViolation, UniqueConstraintText));
        return Err(TranslatePrismaError(violation, context));
      }
      var data := ToCreateData(dto);
      var created := Materialize(data, clock);
      MaterializeWellFormed(data, clock);
      CreatedContent(dto, clock);
      rows := rows + [created];
      clock := clock + RowCount(data);
      result := Ok(created);
    }

    /** `findAll`: every case, newest first. A failure is passed on untranslated. */
    method FindAll(failure: Option<Thrown>) returns (result: Result<seq<StoredCase>, Thrown>)
      requires Valid()
      ensures failure.Some? ==> result == Err(failure.value)
      ensures failure.None? ==> result.Ok? && multiset(result.value) == multiset(rows)
      ensures failure.None? ==> forall i1, i2 :: 0 <= i1 < i2 < |result.value| ==>
        result.value[i1].createdAt > result.value[i2].createdAt
      ensures failure.None? ==> forall i :: 0 <= i < |result.value| ==>
        Linked(result.value[i]) && HierarchyOrdered(result.value[i])
    {
      if failure.Some? {
        return Err(failure.value);
      }
      var newestFirst := Reverse(rows);
      ReverseSameElements(rows);
      result := Ok(newestFirst);
    }

    /** `findById`: the case with the id, or nothing. A failure is passed on untranslated. */
    method FindById(id: int, failure: Option<Thrown>) returns (result: Result<Option<StoredCase>, Thrown>)
      requires Valid()
      ensures failure.Some? ==> result == Err(failure.value)
      ensures failure.None? ==> result.Ok? && (result.value.Some? <==> HasCaseId(rows, id))
      ensures failure.None? && result.Ok? && result.value.Some? ==> result.value.value in rows && result.value.value.id == id
    {
      if failure.Some? {
        return Err(failure.value);
      }
      LookupFinds(rows, id);
      result := Ok(Lookup(rows, id));
    }

    /**
     * `deleteCase`: removes the case (its hierarchy goes with it). A failure,
     * including a missing id, is translated with the not-found message.
     */
    method DeleteCase(id: int, failure: Option<Thrown>) returns (result: Result<(), ServerError>)
      requires Valid()
      modifies this
      ensures Valid() && clock == old(clock)
      ensures failure.Some? ==>
        result == Err(TranslatePrismaError(failure.value, Some(ErrorContext(None, Some(CaseNotFoundMessage(id)))))) &&
        rows == old(rows)
      ensures failure.None? && !HasCaseId(old(rows), id) ==>
        result == Err(NotFoundException(CaseNotFoundMessage(id))) && rows == old(rows)
      ensures failure.None? && HasCaseId(old(rows), id) ==>
        result.Ok? && rows == Filter(old(rows), OtherId(id)) && !HasCaseId(rows, id)
    {
      var context := Some(ErrorContext(None, Some(CaseNotFoundMessage(id))));
      if failure.Some? {
        return Err(TranslatePrismaError(failure.value, context));
      }
      if !HasCaseId(rows, id) {
        var missing := ErrorValue(KnownRequestError(RecordNotFound, MissingRecordText));
        return Err(TranslatePrismaError(missing, context));
      }
      var kept := Filter(rows, OtherId(id));
      FilterKeepsInvariant(rows, clock, id);
      rows := kept;
      result := Ok(());
    }
  }

  lemma ReverseSameElements<T>(s: seq<T>)
    ensures multiset(Reverse(s)) == multiset(s)
  {
    if s != [] {
      var r := Reverse(s);
      assert r == [s[|s| - 1]] + Reverse(s[..|s| - 1]);
      ReverseSameElements(s[..|s| - 1]);
      assert s == s[..|s| - 1] + [s[|s| - 1]];
    }
  }

  /** Dropping one case keeps the store's invariant and removes every row with that id. */
  lemma FilterKeepsInvariant(rows: seq<StoredCase>, clock: int, id: int)
    requires StoreInvariant(rows, clock)
    ensures StoreInvariant(Filter(rows, OtherId(id)), clock)
    ensures !HasCaseId(Filter(rows, OtherId(id)), id)
  {
    var kept := Filter(rows, OtherId(id));
    FilterKeepsPairwise(rows, OtherId(id), (a, b) => EarlierRow(a, b));
    forall i | 0 <= i < |kept| ensures RowValid(kept[i], clock) && kept[i].id != id {
      var k :| 0 <= k < |rows| && rows[k] == kept[i];
    }
  }
}
