/** What the parts of the model share: optional and failing results, the machine word, and
    the text that holds no separator. */
module Common {

  datatype Option<+T> = None | Some(value: T)

  datatype Result<+T, +E> = Ok(value: T) | Err(error: E)

  const WORD: nat := 0x1_0000_0000_0000_0000

  /** An unsigned 64-bit word. */
  type Word = x: nat | x < WORD

  predicate Slashless(s: string) {
    forall i | 0 <= i < |s| :: s[i] != '/'
  }
}
