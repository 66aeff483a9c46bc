/** Small definitions shared by the models of the several components. */
module Wrappers {

  datatype Option<+T> = None | Some(value: T)

  datatype Result<+T> = Ok(value: T) | Err(reason: string) {
    predicate IsFailure() {
      Err?
    }

    function PropagateFailure<U>(): Result<U>
      requires Err?
    {
      Err(reason)
    }

    function Extract(): T
      requires Ok?
    {
      value
    }
  }
}

/** The owned value that crosses threads: what the blackboard stores and the bus delivers. */
module Values {

  datatype SendValue =
    | Number(n: int)
    | Text(text: string)
    | Bool(b: bool)
    | Nothing
    | List(items: seq<SendValue>)
    | Map(pairs: seq<Pair>)
    | Bytes(data: seq<nat>)
    | Complex(re: int, im: int)
    | Array(shape: seq<nat>, byteLen: nat)
    | Time(instant: int)
    | Rng(state: nat, name: string)
    | Private(labels: seq<string>, inner: SendValue)

  datatype Pair = Pair(key: string, value: SendValue)
}
