/** The token model shared by the lexer and the parser. */
module Tokens {

  /**
   * A token carries the offset in the source text where it begins.
   * `NullToken` is the parser's stand-in for "no token here"; the lexer never
   * produces one.
   */
  datatype Token =
    | OperatorToken(pos: int, op: char)
    | CharacterToken(pos: int, ch: char)
    | NumberToken(pos: int, value: real)
    | IdentifierToken(pos: int, name: string)
    | NullToken(pos: int)
  {
    /** The character the parser switches on. */
    function Id(): char {
      match this
      case OperatorToken(_, c) => c
      case CharacterToken(_, c) => c
      case NumberToken(_, _) => '0'
      case IdentifierToken(_, _) => 'i'
      case NullToken(_) => '\0'
    }
  }
}
