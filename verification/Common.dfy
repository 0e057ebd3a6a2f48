/** Vocabulary shared by every module: bytes, pending publishes, errors and a few sequence facts. */
module Common {

  newtype byte = x: int | 0 <= x < 256

  const NEWLINE: byte := 10
  const RETURN: byte := 13

  datatype Option<+T> = None | Some(value: T)

  /** The error values that the delivery core returns; `Nil` is Go's nil error. */
  datatype Err = Nil | CtxErr | PublishErr | WatermarkErr | DeadLetterErr | TransformErr | OversizeErr

  /** A marshalled record waiting to be published, with the watermark it stands for. */
  datatype Pending = Pending(payload: seq<byte>, path: string, offset: int, inode: nat)

  /** Total payload bytes of a batch. */
  function Bytes(items: seq<Pending>): nat {
    if items == [] then 0 else Bytes(items[..|items| - 1]) + |items[|items| - 1].payload|
  }

  /** A batch list laid end to end. */
  function Flatten<T>(batches: seq<seq<T>>): seq<T> {
    if batches == [] then [] else Flatten(batches[..|batches| - 1]) + batches[|batches| - 1]
  }

  lemma BytesAppend(items: seq<Pending>, item: Pending)
    ensures Bytes(items + [item]) == Bytes(items) + |item.payload|
  {
    assert (items + [item])[..|items|] == items;
  }

  lemma FlattenAppend<T>(batches: seq<seq<T>>, batch: seq<T>)
    ensures Flatten(batches + [batch]) == Flatten(batches) + batch
  {
    assert (batches + [batch])[..|batches|] == batches;
  }
}
