# Calculator interpreter

A Dafny model of the arithmetic interpreter in `CalculatorInterpreter.py`. It covers four parts:

- **The scanner (`Lexer`).** It walks the input with a cursor `pos` and the character under it, `current_char`. It skips whitespace and reads maximal runs of decimal digits as `INTEGER` tokens. Each of `+ - * / ( )` becomes a one-character token. At the end of the text it hands out `EOF`, and on any other character it raises `Invalid character`.
- **The recursive-descent parser (`Parser`).** It holds one token of lookahead, `current_token`, and implements `expr := term ((+|-) term)*`, `term := factor ((*|/) factor)*` and `factor := INTEGER | ( expr )`. `eat` checks the lookahead's kind and fetches the next token.
- **The tree evaluator `visit`.**
- **The driver `evaluate`.** It lexes, parses one expression and evaluates it.

Modules, one per part of the program:

| module | file | models |
|---|---|---|
| `Basics` | basics.dfy | the failures the program raises (`Invalid character`, `Invalid syntax`, `ZeroDivisionError`, the `TypeError` of arithmetic on `None`) as a `Result` value |
| `Tokens` | tokens.dfy | the token kinds and `Token` |
| `Lexing` | lexing.dfy | `NextToken` and `TokenStream`, which specify `get_next_token`; the class `Lexer` with `Advance`, `SkipWhitespace`, `Integer` and `GetNextToken` |
| `Ast` | ast.dfy | `Num` and `BinOp` as the datatype `Node`; `Missing` is the `None` that `factor` returns |
| `Parsing` | parsing.dfy | the grammar as functions over the token stream (`ParseFactor`, `ParseTerm`, `ParseExpr` and the two loop tails); the class `Parser` with `Eat`, `Factor`, `Term` and `Expr`, each proved to agree with those functions |
| `Evaluation` | evaluation.dfy | `visit` as `Visit` |
| `Calculator` | calculator.dfy | `evaluate` as the method `Evaluate`, specified by the function `Calculate` |
| `Printing` | printing.dfy | a printer from trees to tokens and text, and the round trip through the lexer and parser. The round trip is how precedence, left associativity and the parenthesis rules are stated |
| `Scenarios` | scenarios.dfy | whole runs of `evaluate` on particular texts |

### How the model is built

The lexer is lazy: the parser fetches one token at a time. The ghost value `TokenStream(text, pos)` is every token that successive calls of `get_next_token` would hand out from `pos` on. It ends either at `EOF` or at the character that makes the lexer raise.

The parser's class invariant `Valid()` ties the two classes together:

- `current_token` is the token at the ghost position `index` of that stream;
- the ghost sequence `cursors` records where the lexer's cursor stands after each call of `get_next_token`, and the cursor sits at the entry for `index`;
- calling `get_next_token` from the entry for `k` yields the stream's token `k + 1`, or the error that ends the stream.

Each parser method is proved to return what the matching parsing function returns, and to stop at the index it reports. Those functions are in turn related to the printer: parsing the printed tokens of a tree gives that tree back.

### Behaviour kept from the code

- `factor` has no `else` branch. On a lookahead other than an integer or `(` it returns `None` and consumes nothing. The model returns `Missing`; evaluating `Missing` gives `Null`, and any arithmetic on `Null` fails with `TypeError`.
- Because of that, `"*5"` parses as `BinOp(None, *, 5)` and evaluating it raises `TypeError`, not `Invalid syntax`. The grammar rule `factor : INTEGER | LPAREN expr RPAREN` suggests a syntax error here, but `factor` has no `else` branch that raises one; the model follows the code (`Scenarios.LeadingOperator`).
- `evaluate` never checks that the expression is followed by `EOF`:
  - Trailing tokens are ignored (`Scenarios.TrailingIgnored`, `Printing.TrailingTokensIgnored`).
  - So is an invalid character after a stray `)`, because the lexer never reaches it (`Printing.StrayParenthesis`).
- `visit` on a division evaluates the right operand first. When the divisor is zero it raises before it evaluates the left operand.
- Values are `real`: `+ - *` on integers stay integral (`Evaluation.DivisionFreeIsInteger`), and `/` is the exact quotient. A zero divisor, literal or computed, raises division by zero (`Evaluation.VisitIsExact`).

## Model

| member | source | states |
|---|---|---|
| `Tokens.SymbolKind` | CalculatorInterpreter.py:59-88 | each of `+ - * / ( )` maps to its own kind; the kind is never INTEGER or EOF, and it is spelt back by the same character |
| `Tokens.SymbolCharKind` | CalculatorInterpreter.py:59-88 | the character of every one-character kind is read back as that kind |
| `Lexing.SkipWs` | CalculatorInterpreter.py:39-41 | the end of the whitespace run: never before `pos`, within the text when it moved, and not on a whitespace character |
| `Lexing.SkipWsOverSpaces` | CalculatorInterpreter.py:39-41 | every character the whitespace skip passes over is whitespace |
| `Lexing.DigitRunEnd` | CalculatorInterpreter.py:43-48 | the end of the digit run: never before `pos`, within the text when it moved, and not on a digit |
| `Lexing.DigitRunOverDigits` | CalculatorInterpreter.py:43-48 | every character of the run is a digit |
| `Lexing.NextToken` | CalculatorInterpreter.py:50-90 | the only error is Invalid character; a token other than EOF advances the cursor and stays within the text; EOF carries no payload |
| `Lexing.EofIffBlank` | CalculatorInterpreter.py:50-90 | `get_next_token` returns EOF exactly when only whitespace is left from the cursor (both directions) |
| `Lexing.EofIsStable` | CalculatorInterpreter.py:50-90 | once EOF is returned, calling again returns EOF with the cursor unmoved, and the stream from there is empty |
| `Lexing.WhitespaceInsensitive` | CalculatorInterpreter.py:52-54 | whitespace between the cursor and the next token changes neither that token nor any later one |
| `Lexing.MaximalMunch` | CalculatorInterpreter.py:43-58 | on a digit: one INTEGER token for the longest run of digits, with its decimal value; the cursor stops on the first non-digit or at the end |
| `Lexing.SingleCharacterTokens` | CalculatorInterpreter.py:59-88 | each of `+ - * / ( )` yields its kind and advances the cursor by exactly one |
| `Lexing.InvalidCharacterFails` | CalculatorInterpreter.py:50-90 | a character that is not whitespace, a digit or an operator makes the lexer raise Invalid character |
| `Lexing.Lexer.constructor` | CalculatorInterpreter.py:24-27 | the cursor starts at 0 with `current_char` on the first character |
| `Lexing.Lexer.Advance` | CalculatorInterpreter.py:32-37 | `pos` grows by exactly one, and `current_char` is the character at `pos` or None past the end |
| `Lexing.Lexer.SkipWhitespace` | CalculatorInterpreter.py:39-41 | the cursor lands at the end of the whitespace run and the cursor invariant holds |
| `Lexing.Lexer.Integer` | CalculatorInterpreter.py:43-48 | the cursor lands at the end of the digit run; the digits consumed are all digits, and the result is their decimal value |
| `Lexing.Lexer.GetNextToken` | CalculatorInterpreter.py:50-90 | returns the token, new cursor or error given by `NextToken` for the cursor it started from |
| `Parsing.CursorsSynced` | CalculatorInterpreter.py:50-90 | from any cursor, `get_next_token` returns the first token of the stream, and calling it at the k-th recorded cursor returns the stream's token k+1 (or the error that ends the stream) |
| `Parsing.FetchAfter` | CalculatorInterpreter.py:101-105 | when the parser's lookahead at index k can be fetched, calling `get_next_token` from the lexer's cursor yields exactly the stream's next token, or the error that ends it |
| `Parsing.Parser.FromFirstToken` | CalculatorInterpreter.py:94-96 | a parser whose lookahead is the first token of the stream satisfies the parser invariant |
| `Parsing.Parser.Create` | CalculatorInterpreter.py:94-96 | creating the parser fetches the first token. It fails (with Invalid character only) exactly when that token cannot be lexed; otherwise the parser sits at index 0 of the stream |
| `Parsing.Parser.Eat` | CalculatorInterpreter.py:101-105 | on a matching lookahead it advances to the next token of the stream. On a mismatch it fails with Invalid syntax and changes neither the lookahead nor the lexer cursor |
| `Parsing.Parser.Factor` | CalculatorInterpreter.py:107-116 | returns the tree and stops at the index given by `ParseFactor`, including `Missing` on any other lookahead and the error of an unclosed `(` |
| `Parsing.Parser.Term` | CalculatorInterpreter.py:118-130 | returns what `ParseTerm` gives: factors joined by `*` and `/`, folded to the left |
| `Parsing.Parser.Expr` | CalculatorInterpreter.py:132-144 | returns what `ParseExpr` gives: terms joined by `+` and `-`, folded to the left |
| `Evaluation.Apply` | CalculatorInterpreter.py:176-186 | arithmetic on a node fails exactly when an operand is None, and then with TypeError |
| `Evaluation.Visit` | CalculatorInterpreter.py:172-186 | the value is None exactly for a missing tree; a division-by-zero error implies the tree has a division; only operator nodes fail |
| `Evaluation.CompleteTreeEvaluates` | CalculatorInterpreter.py:172-186 | a tree with no missing part evaluates to a number or raises division by zero, never TypeError |
| `Evaluation.DivisionFreeIsInteger` | CalculatorInterpreter.py:173-181 | without division, evaluation succeeds with the integer value of the tree |
| `Evaluation.VisitIsExact` | CalculatorInterpreter.py:172-186 | on every tree with no missing part, `visit` raises division by zero exactly when some divisor's exact value is zero, and otherwise returns the tree's exact value, computed without any evaluation order |
| `Evaluation.ComputedZeroDivisor` | CalculatorInterpreter.py:182-185 | a divisor that evaluates to zero without being the literal `0`, as in `5/(1-1)`, raises division by zero |
| `Evaluation.ApplyMul` | CalculatorInterpreter.py:181 | `*` on two integers is their integer product |
| `Evaluation.MissingOperandFails` | CalculatorInterpreter.py:172-186 | a missing operand anywhere in an operator tree makes evaluation fail |
| `Evaluation.OrderIrrelevantWhenComplete` | CalculatorInterpreter.py:182-186 | on trees with no missing part, evaluating the divisor first gives the same result as left-to-right evaluation |
| `Evaluation.OrderObservableWithMissing` | CalculatorInterpreter.py:182-186 | with a missing operand the order shows: `(None + None) / 0` raises division by zero, where left-first evaluation would raise TypeError |
| `Calculator.Evaluate` | CalculatorInterpreter.py:189-194 | the result of `evaluate` is `Calculate(text)`: the parsed tree and its value, or the first error raised |
| `Printing.DigitsValue` | CalculatorInterpreter.py:43-48 | the decimal spelling of a number is all digits and reads back as that number |
| `Printing.SpellReads` | CalculatorInterpreter.py:55-88 | every printable token's spelling is read back by the lexer as that token |
| `Printing.LexRender` | CalculatorInterpreter.py:50-90 | lexing printed tokens separated by spaces gives exactly those tokens, then EOF |
| `Printing.ParseRoundTrip` | CalculatorInterpreter.py:107-144 | parsing the printed tokens of any tree gives that tree back and consumes all the tokens |
| `Printing.CompleteExpr` | CalculatorInterpreter.py:132-144 | a printed expression followed by `)` or EOF is parsed whole, and parsing stops there |
| `Printing.TextRoundTrip` | CalculatorInterpreter.py:189-194 | evaluating the printed text of any tree other than the missing one gives that tree and its value (the missing tree prints as the empty text, which `evaluate` rejects) |
| `Printing.TighterOnTheRight` | CalculatorInterpreter.py:118-144 | `a + b * c` (and the other mixes) parses as `a + (b * c)` |
| `Printing.TighterOnTheLeft` | CalculatorInterpreter.py:118-144 | `a * b + c` parses as `(a * b) + c` |
| `Printing.LeftAssociative` | CalculatorInterpreter.py:118-144 | two operators of one precedence fold to the left: `10 - 2 - 3` is `(10 - 2) - 3` |
| `Printing.UnclosedParenthesis` | CalculatorInterpreter.py:112-116 | `(` followed by an expression and EOF fails with Invalid syntax |
| `Printing.UnclosedParenthesisText` | CalculatorInterpreter.py:107-116 | text with a `(` that is never closed makes `evaluate` fail with Invalid syntax |
| `Printing.StrayParenthesis` | CalculatorInterpreter.py:192 | when the input lexes to an expression, a stray `)` and anything after it, the input is non-empty and `evaluate` returns that expression and its value. This holds even if an invalid character follows |
| `Printing.TrailingTokensIgnored` | CalculatorInterpreter.py:192 | printed text of any tree, then a stray `)` and any tokens, evaluates to that tree and its value: the tokens after the expression are never looked at |
| `Scenarios.DivisionByZeroExample` | CalculatorInterpreter.py:182-185 | `5/0` raises division by zero |
| `Scenarios.InvalidCharacterExample` | CalculatorInterpreter.py:89 | `3+a` raises Invalid character |
| `Scenarios.LeadingOperator` | CalculatorInterpreter.py:107-128 | `*5` raises TypeError (the missing left operand), not Invalid syntax |
| `Scenarios.TrailingIgnored` | CalculatorInterpreter.py:192 | `1 2` evaluates to the tree `1` with value 1 |

## Left out

- The Tkinter window, `display_tree_and_result` and the `calc>` read loop (CalculatorInterpreter.py:1, 196-224): GUI and console I/O.
- The `print("Token:", ...)` debug output of `get_next_token`: a side effect with no bearing on the result.
- `Token.__str__`, `Num.__str__` and the tree layout of `BinOp.__str__`/`_str_helper`: presentation text only.
- The payload of operator tokens (`'+'`, `'('`, ... and None for EOF). The model stores 0, because only the printed form of a token shows it.
- Python's floating-point division and the floats it brings into the other operators. Values are exact `real`s, so none of the following is modelled:
  - the rounding of float results;
  - the `OverflowError` raised whenever an integer too large for a float (about 310 digits or more) meets a float operand under any of `+ - * /` (CalculatorInterpreter.py:177, 179, 181, 186). For example `1/1+1` followed by 309 zeros raises, where the model returns the exact sum;
  - the `OverflowError` of a quotient too large for a float (a 401-digit literal divided by 1);
  - a divisor that underflows to `0.0` and so raises division by zero (`1/(1/1` followed by 400 zeros`)`), where the model returns the exact quotient.
- Unicode `str.isdigit` and `str.isspace`. Only ASCII digits and ASCII whitespace (space, `\t`–`\r`, `\x1c`–`\x1f`) are recognised.
- `Lexing.Lexer.constructor`: requires non-empty text. On empty text the source raises `IndexError` when it reads `text[0]`, and its only caller skips empty input.
- `Calculator.Evaluate`: requires non-empty text, for the same reason. So does the function `Calculate` that specifies it, and `Printing.TextRoundTrip` leaves out the missing tree, whose printed text is empty.
- Python's `TypeError` from arithmetic on `None` is one failure value, `TypeError`; its message is not modelled.
- The exception messages, and the kind of exception behind each, are reduced to the failure values `InvalidCharacter`, `InvalidSyntax`, `DivisionByZero` and `TypeError`. Exceptions from the limits of the Python host have no failure value: the `OverflowError` and underflow cases are on the floating-point line above, and the others on the next line.
- Limits of the Python host: `int(result)` raises `ValueError` on a literal of more than 4300 digits (Python 3.11 and later), and the recursion limit raises `RecursionError` on deep nesting, at roughly 330 nested parentheses in `expr`/`term`/`factor` or roughly 1000 chained operators in `visit`. The model has unbounded integers and unbounded recursion.
