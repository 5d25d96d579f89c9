/**
 * The shape of a Case -> Specimen -> Block -> Slide tree: for every specimen,
 * for every one of its blocks, the number of slides. Every representation of
 * the tree (form values, request payload, stored record, response, client
 * record) has a shape, and the counts the application shows are functions of it.
 */
module Hierarchy {

  type Shape = seq<seq<nat>>

  /** Number of slides in one specimen, given the slide count of each block. */
  function RowSlides(row: seq<nat>): nat
  {
    if row == [] then 0 else RowSlides(row[..|row| - 1]) + row[|row| - 1]
  }

  /** Number of blocks in the whole tree. */
  function ShapeBlocks(shape: Shape): nat
  {
    if shape == [] then 0 else ShapeBlocks(shape[..|shape| - 1]) + |shape[|shape| - 1]|
  }

  /** Number of slides in the whole tree. */
  function ShapeSlides(shape: Shape): nat
  {
    if shape == [] then 0 else ShapeSlides(shape[..|shape| - 1]) + RowSlides(shape[|shape| - 1])
  }

  /** Every specimen has a block and every block has a slide. */
  predicate FullShape(shape: Shape) {
    forall i :: 0 <= i < |shape| ==> |shape[i]| > 0 && forall j :: 0 <= j < |shape[i]| ==> shape[i][j] > 0
  }

  lemma {:induction false} RowSlidesAppend(a: seq<nat>, b: seq<nat>)
    ensures RowSlides(a + b) == RowSlides(a) + RowSlides(b)
  {
    if b != [] {
      assert (a + b)[..|a + b| - 1] == a + b[..|b| - 1];
      RowSlidesAppend(a, b[..|b| - 1]);
    } else {
      assert a + b == a;
    }
  }

  /** Both counts are additive over concatenation of specimen lists. */
  lemma {:induction false} ShapeCountsAppend(a: Shape, b: Shape)
    ensures ShapeBlocks(a + b) == ShapeBlocks(a) + ShapeBlocks(b)
    ensures ShapeSlides(a + b) == ShapeSlides(a) + ShapeSlides(b)
  {
    if b != [] {
      assert (a + b)[..|a + b| - 1] == a + b[..|b| - 1];
      ShapeCountsAppend(a, b[..|b| - 1]);
    } else {
      assert a + b == a;
    }
  }

  lemma {:induction false} RowSlidesAtLeastLength(row: seq<nat>)
    requires forall j :: 0 <= j < |row| ==> row[j] > 0
    ensures RowSlides(row) >= |row|
  {
    if row != [] {
      RowSlidesAtLeastLength(row[..|row| - 1]);
    }
  }

  /** In a full tree there are at least as many slides as blocks and blocks as specimens. */
  lemma {:induction false} FullShapeCounts(shape: Shape)
    requires FullShape(shape)
    ensures ShapeSlides(shape) >= ShapeBlocks(shape) >= |shape|
  {
    if shape != [] {
      var last := shape[|shape| - 1];
      FullShapeCounts(shape[..|shape| - 1]);
      RowSlidesAtLeastLength(last);
    }
  }
}
