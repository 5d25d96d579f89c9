/**
 * The records the client receives from the API, and the values an API call can
 * throw. Timestamps are optional strings on the client.
 */
module ClientCases {
  import opened Common
  import opened Hierarchy

  datatype Slide = Slide(id: int, staining: string, createdAt: Option<string>, updatedAt: Option<string>)
  datatype Block = Block(id: int, slides: seq<Slide>, createdAt: Option<string>, updatedAt: Option<string>)
  datatype Specimen = Specimen(id: int, blocks: seq<Block>, createdAt: Option<string>, updatedAt: Option<string>)
  datatype CaseRecord = CaseRecord(
    id: int, identifier: string, specimens: seq<Specimen>, createdAt: Option<string>, updatedAt: Option<string>)

  /** A thrown value: an `Error` with its message, or anything else. */
  datatype Thrown = ErrorInstance(message: string) | NonErrorValue

  /** The slide count of each block of one specimen. */
  function BlockRow(blocks: seq<Block>): (row: seq<nat>)
    ensures |row| == |blocks|
    ensures forall j :: 0 <= j < |blocks| ==> row[j] == |blocks[j].slides|
  {
    seq(|blocks|, j requires 0 <= j < |blocks| => |blocks[j].slides|)
  }

  function RecordShape(specimens: seq<Specimen>): (shape: Shape)
    ensures |shape| == |specimens|
    ensures forall i :: 0 <= i < |specimens| ==> shape[i] == BlockRow(specimens[i].blocks)
  {
    seq(|specimens|, i requires 0 <= i < |specimens| => BlockRow(specimens[i].blocks))
  }
}
