/** The totals shown in a case's header: left folds over the specimens of a record. */
module GraphUtils {
  import opened Hierarchy
  import opened ClientCases

  /** The inner `reduce`: adds each block's slide count to `total`, left to right. */
  function SumSlides(blocks: seq<Block>, total: nat): nat
  {
    if blocks == [] then total else SumSlides(blocks[1..], total + |blocks[0].slides|)
  }

  function SumBlocks(specimens: seq<Specimen>, total: nat): nat
  {
    if specimens == [] then total else SumBlocks(specimens[1..], total + |specimens[0].blocks|)
  }

  function SumSpecimenSlides(specimens: seq<Specimen>, total: nat): nat
  {
    if specimens == [] then total
    else SumSpecimenSlides(specimens[1..], total + SumSlides(specimens[0].blocks, 0))
  }

  /** `countBlocks`: the number of blocks of all specimens. */
  function CountBlocks(specimens: seq<Specimen>): (count: nat)
    ensures count == ShapeBlocks(RecordShape(specimens))
  {
    SumBlocksIsShapeBlocks(specimens, 0);
    SumBlocks(specimens, 0)
  }

  /** `countSlides`: the number of slides of all blocks of all specimens. */
  function CountSlides(specimens: seq<Specimen>): (count: nat)
    ensures count == ShapeSlides(RecordShape(specimens))
  {
    SumSpecimenSlidesIsShapeSlides(specimens, 0);
    SumSpecimenSlides(specimens, 0)
  }

  lemma RowSlidesCons(c: nat, row: seq<nat>)
    ensures RowSlides([c] + row) == c + RowSlides(row)
  {
    RowSlidesAppend([c], row);
    assert [c][..0] == [];
  }

  lemma ShapeCountsCons(r: seq<nat>, shape: Shape)
    ensures ShapeBlocks([r] + shape) == |r| + ShapeBlocks(shape)
    ensures ShapeSlides([r] + shape) == RowSlides(r) + ShapeSlides(shape)
  {
    ShapeCountsAppend([r], shape);
    assert [r][..0] == [];
  }

  lemma RecordShapeCons(specimens: seq<Specimen>)
    requires specimens != []
    ensures RecordShape(specimens) == [BlockRow(specimens[0].blocks)] + RecordShape(specimens[1..])
  {
  }

  lemma {:induction false} SumSlidesIsRowSlides(blocks: seq<Block>, total: nat)
    ensures SumSlides(blocks, total) == total + RowSlides(BlockRow(blocks))
  {
    if blocks != [] {
      SumSlidesIsRowSlides(blocks[1..], total + |blocks[0].slides|);
      assert BlockRow(blocks) == [|blocks[0].slides|] + BlockRow(blocks[1..]);
      RowSlidesCons(|blocks[0].slides|, BlockRow(blocks[1..]));
    }
  }

  lemma {:induction false} SumBlocksIsShapeBlocks(specimens: seq<Specimen>, total: nat)
    ensures SumBlocks(specimens, total) == total + ShapeBlocks(RecordShape(specimens))
  {
    if specimens != [] {
      SumBlocksIsShapeBlocks(specimens[1..], total + |specimens[0].blocks|);
      RecordShapeCons(specimens);
      ShapeCountsCons(BlockRow(specimens[0].blocks), RecordShape(specimens[1..]));
    }
  }

  lemma {:induction false} SumSpecimenSlidesIsShapeSlides(specimens: seq<Specimen>, total: nat)
    ensures SumSpecimenSlides(specimens, total) == total + ShapeSlides(RecordShape(specimens))
  {
    if specimens != [] {
      var first, rest := specimens[0].blocks, specimens[1..];
      var head := SumSlides(first, 0);
      var row, tail := BlockRow(first), RecordShape(rest);
      SumSlidesIsRowSlides(first, 0);
      assert head == RowSlides(row);
      SumSpecimenSlidesIsShapeSlides(rest, total + head);
      RecordShapeCons(specimens);
      ShapeCountsCons(row, tail);
      assert ShapeSlides(RecordShape(specimens)) == head + ShapeSlides(tail);
    }
  }

  /** Both totals are zero without specimens and add up over concatenated specimen lists. */
  lemma CountsAppend(a: seq<Specimen>, b: seq<Specimen>)
    ensures CountBlocks([]) == 0 && CountSlides([]) == 0
    ensures CountBlocks(a + b) == CountBlocks(a) + CountBlocks(b)
    ensures CountSlides(a + b) == CountSlides(a) + CountSlides(b)
  {
    assert RecordShape(a + b) == RecordShape(a) + RecordShape(b);
    ShapeCountsAppend(RecordShape(a), RecordShape(b));
  }
}
