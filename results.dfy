/** Optional values and the outcome of a front-end stage: a value or one of the
    two errors the lexer and the tree builder raise. */
module Results {

  datatype Option<+T> = None | Some(value: T)

  /** The two exceptions of the core: "Invalid character: c" from the lexer and
      "Invalid Syntax" from the tree builder. */
  datatype Error = InvalidCharacter(c: char) | InvalidSyntax

  datatype Result<+T> = Ok(value: T) | Err(error: Error)
}
