/** The token kinds and the `Token` value of CalculatorInterpreter.py. */
module Tokens {
  import opened Basics

  /** The module-level token type constants INTEGER … EOF. */
  datatype Kind = Integer | Plus | Minus | Multiply | Divide | LParen | RParen | Eof

  /** `value` is the literal's value for an Integer token and 0 for every
      other kind (the source stores the operator character or None there,
      which only the printed form of a token shows). */
  datatype Token = Token(kind: Kind, value: nat)

  const EofToken := Token(Eof, 0)

  /** The kind of the single-character token `c`, if `c` is one of `+ - * / ( )`. */
  function SymbolKind(c: char): (k: Option<Kind>)
    ensures k.Some? ==> k.value != Integer && k.value != Eof && SymbolChar(k.value) == c
  {
    match c
    case '+' => Some(Plus)
    case '-' => Some(Minus)
    case '*' => Some(Multiply)
    case '/' => Some(Divide)
    case '(' => Some(LParen)
    case ')' => Some(RParen)
    case _ => None
  }

  /** The character a single-character token is spelt with. */
  function SymbolChar(k: Kind): char
    requires k != Integer && k != Eof
  {
    match k
    case Plus => '+'
    case Minus => '-'
    case Multiply => '*'
    case Divide => '/'
    case LParen => '('
    case RParen => ')'
  }

  lemma SymbolCharKind(k: Kind)
    requires k != Integer && k != Eof
    ensures SymbolKind(SymbolChar(k)) == Some(k)
  {
  }
}
