/** Byte strings, ASCII literals and the small failure-carrying types shared by the model. */
module Bytes {

  newtype byte = b: int | 0 <= b < 256

  /** Python's `bytes`. */
  type Bytes = seq<byte>

  datatype Option<+T> = None | Some(value: T)

  datatype Result<+T, +E> = Success(value: T) | Failure(error: E)

  const LT: byte := 60     // '<'
  const GT: byte := 62     // '>'
  const SLASH: byte := 47  // '/'
  const SPACE: byte := 32  // ' '

  /** The concatenation of a sequence of byte blocks, in order. */
  function Flatten(blocks: seq<Bytes>): Bytes
  {
    if blocks == [] then [] else blocks[0] + Flatten(blocks[1..])
  }

  lemma {:induction false} FlattenAppend(a: seq<Bytes>, b: seq<Bytes>)
    ensures Flatten(a + b) == Flatten(a) + Flatten(b)
  {
    if a == [] {
      assert a + b == b;
    } else {
      assert (a + b)[1..] == a[1..] + b;
      FlattenAppend(a[1..], b);
    }
  }
}
