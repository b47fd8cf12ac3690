/** The two result shapes the modelled code returns. */
module Wrappers {

  datatype Option<+T> = None | Some(value: T)

  datatype Result<+T, +E> = Ok(value: T) | Err(error: E)

  /** A concatenation ends as its second part does. */
  lemma InitOfConcat<T>(xs: seq<T>, ys: seq<T>)
    requires ys != []
    ensures var whole, init := xs + ys, ys[..|ys| - 1];
      whole[..|whole| - 1] == xs + init && whole[|whole| - 1] == ys[|ys| - 1]
  {}
}
