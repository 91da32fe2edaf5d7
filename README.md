# WorldEdit expression compiler, modelled in Dafny

WorldEdit's expression package compiles a short arithmetic text such as
`x*2 + sin(y)` into a tree of evaluable nodes (`Invokable`s), over a set of
variable names the caller declares. This project models that compiler:

- **Lexer**: a cursor over the text that yields operator, punctuation,
  number and identifier tokens, each tagged with its character offset.
- **Parser**: a recursive-descent cursor over the tokens. It collects one
  half-processed list per scope (the whole input, a bracket, a call
  argument). It then resolves that list level by level: `+ -`, then
  `* / %`, then `^`, then a primary level that accepts a node preceded by
  prefix markers. At each level the list is split at the rightmost
  operator of that level.
- **Operators**: the registry of built-in operations, looked up
  reflectively by name and operand count.
- **Function**: the call node bound to an operation or library function.
- **NegateOperator**: the negation node, with its constant folding.
- **Expression**: the object that owns the variable table and the value
  slots. It writes the caller's values into the slots positionally, then
  evaluates the tree.

The model is split into modules that follow these files:

| file | module | models |
|---|---|---|
| `wrappers.dfy` | `Wrappers` | `Option` and `Result` |
| `tokens.dfy` | `Tokens` | the token kinds and their identifying characters |
| `operators.dfy` | `Operators` | the registry, operation lookup, and each operation's value under Java's `double`/`long` rules |
| `ast.dfy` | `Ast` | the evaluable nodes, their evaluation and their rendering |
| `folding.dfy` | `Folding` | `optimize` |
| `lexer.dfy` | `Lexing` | the lexer: character classes, the number and identifier patterns, the scanning rules, and the `Lexer` class |
| `levels.dfy` | `Levels` | splitting at a level (`process`), level resolution (`processLevel4`, `processLevel3`, `processExp`) and the primary level (`processLevel2`) |
| `parser.dfy` | `Parsing` | the recursive descent, specified by functions and implemented by the `Parser` class |
| `expression.dfy` | `Expressions` | the variable table, positional binding, the `Expression` class and `compile` |

Operations that change state in the source are classes with methods:
`Lexing.Lexer`, `Parsing.Parser` and `Expressions.Expression`. Each method is
proved equal to a pure specification function over the old state, and the
properties are proved about those functions.

## Model

| member | source | states |
|---|---|---|
| `Operators.GetOperator` | src/main/java/com/sk89q/worldedit/expression/runtime/Operators.java:23-28 | a found operation has the requested name and parameter count; a miss means no operation has both |
| `Operators.GetOperatorFindsEach` | src/main/java/com/sk89q/worldedit/expression/runtime/Operators.java:23-28 | each operation is found under its own name and arity and under no other |
| `Operators.TruncateTowardZero` | src/main/java/com/sk89q/worldedit/expression/runtime/Operators.java:55-57 | the `(long)` cast drops the fraction toward zero: the result is within one of the value, on the zero side |
| `Operators.ToLong` | src/main/java/com/sk89q/worldedit/expression/runtime/Operators.java:55-57 | the `(long)` cast lands in the long range, saturates at its bounds, and strictly inside them is the value truncated toward zero |
| `Operators.ToLongOfLong` | src/main/java/com/sk89q/worldedit/expression/runtime/Operators.java:55-57 | the cast leaves a value already in the long range unchanged |
| `Operators.Wrap64` | src/main/java/com/sk89q/worldedit/expression/runtime/Operators.java:89-94 | a shift result wraps into the long range and agrees with the exact result modulo 2^64 |
| `Operators.ShiftDistance` | src/main/java/com/sk89q/worldedit/expression/runtime/Operators.java:89-94 | a long shift uses its distance modulo 64 |
| `Operators.Decided` | src/main/java/com/sk89q/worldedit/expression/runtime/Operators.java:82-87 | `or`/`and` are decided by the left value alone exactly where Java's `\|\|`/`&&` skip the right operand |
| `Operators.ComparisonIsBoolean` | src/main/java/com/sk89q/worldedit/expression/runtime/Operators.java:59-87 | comparisons and logical operations answer exactly 1.0 or 0.0 |
| `Operators.OrderingsMirror` | src/main/java/com/sk89q/worldedit/expression/runtime/Operators.java:59-70 | `lth`/`leq` are `gth`/`geq` with the operands swapped |
| `Operators.EqualityComplement` | src/main/java/com/sk89q/worldedit/expression/runtime/Operators.java:72-77 | exactly one of `equ` and `neq` answers 1.0, and `equ` answers 1.0 exactly on equal values |
| `Operators.NearLaw` | src/main/java/com/sk89q/worldedit/expression/runtime/Operators.java:78-80 | `near` is symmetric and answers 1.0 exactly within 1e-7 |
| `Operators.NotLaw` | src/main/java/com/sk89q/worldedit/expression/runtime/Operators.java:52-54 | `not` answers 1.0 exactly on values that are not greater than zero |
| `Operators.LogicLaw` | src/main/java/com/sk89q/worldedit/expression/runtime/Operators.java:82-87 | `or`/`and` are the truth tables of their operands' truthiness, and are symmetric |
| `Operators.InvIsComplement` | src/main/java/com/sk89q/worldedit/expression/runtime/Operators.java:55-57 | `inv` stays in the long range and, applied twice, gives back the truncated long |
| `Operators.RemainderLaw` | src/main/java/com/sk89q/worldedit/expression/runtime/Operators.java:42-44 | `%` differs from the dividend by a whole multiple of the divisor, has the sign of the dividend and is smaller in magnitude than the divisor |
| `Operators.ShiftByWordSize` | src/main/java/com/sk89q/worldedit/expression/runtime/Operators.java:89-94 | shifting by 64 is no shift, for both directions |
| `Operators.ShiftWrapsAround` | src/main/java/com/sk89q/worldedit/expression/runtime/Operators.java:89-91 | `1 << 63` is the least long |
| `Ast.EvalArgs` | src/main/java/com/sk89q/worldedit/expression/runtime/Function.java:33-36 | a call's argument values, in order, each the value of its argument; a failure is the error of the first failing argument, all before it having succeeded |
| `Ast.BinaryCallOrder` | src/main/java/com/sk89q/worldedit/expression/runtime/Function.java:33-36 | a two-operand call evaluates the left operand, then the right unless `or`/`and` is decided, and combines them; a failure of an operand is the call's failure |
| `Ast.ShortCircuit` | src/main/java/com/sk89q/worldedit/expression/runtime/Operators.java:82-87 | `or` with a true left operand is 1.0 and `and` with a false one is 0.0, whatever the right operand does |
| `Ast.NegateValue` | src/main/java/com/sk89q/worldedit/expression/runtime/NegateOperator.java:15-18 | a negation fails exactly when its argument fails, and is otherwise the negated value |
| `Ast.PlainSlotsBelow` | src/main/java/com/sk89q/worldedit/expression/parser/Parser.java:93-97 | a tree whose variables come from the table only refers to slots below any bound of the table's slots |
| `Ast.PlainNeverMismatches` | src/main/java/com/sk89q/worldedit/expression/runtime/Function.java:33-36 | a tree of the parser's shape fails to evaluate only when a library function throws, never by a wrong argument count |
| `Ast.JoinSnoc` | src/main/java/com/sk89q/worldedit/expression/runtime/Function.java:41-47 | appending a part adds the `", "` separator only when a part precedes it |
| `Ast.CallText` | src/main/java/com/sk89q/worldedit/expression/runtime/Function.java:38-49 | the rendering loop builds `name(` + the parts joined by `", "` + `)`, and `name()` for no parts |
| `Ast.RenderCall` | src/main/java/com/sk89q/worldedit/expression/runtime/Function.java:38-49 | a call node renders as its operation's name and its rendered arguments |
| `Folding.Optimize` | src/main/java/com/sk89q/worldedit/expression/parser/NegateOperator.java:29-38 | folding introduces no new variable references |
| `Folding.OptimizePreservesValue` | src/main/java/com/sk89q/worldedit/expression/parser/NegateOperator.java:29-38 | folding never fails, and the folded tree has the original's value over any slot values |
| `Folding.OptimizeIdempotent` | src/main/java/com/sk89q/worldedit/expression/parser/NegateOperator.java:29-38 | folding a folded tree changes nothing |
| `Folding.NegateFolding` | src/main/java/com/sk89q/worldedit/expression/parser/NegateOperator.java:29-38 | a negation whose folded argument is a constant becomes the negated constant; otherwise it is a new negation of the folded argument |
| `Folding.OptimizeKeepsOtherNodes` | src/main/java/com/sk89q/worldedit/expression/parser/NegateOperator.java:29-38 | only a negation node can be changed by folding |
| `Lexing.WhitespaceEnd` | src/main/java/com/sk89q/worldedit/expression/lexer/Lexer.java:107-111 | the end of the whitespace run: everything skipped is whitespace and the character reached is not |
| `Lexing.Lexer.SkipWhitespace` | src/main/java/com/sk89q/worldedit/expression/lexer/Lexer.java:107-111 | the loop leaves the cursor at the end of the whitespace run |
| `Lexing.NumberEndIsLongestMatch` | src/main/java/com/sk89q/worldedit/expression/lexer/Lexer.java:41 | the number scanner's match is in the number pattern's language, and no longer prefix is |
| `Lexing.IdentifierIsLongestMatch` | src/main/java/com/sk89q/worldedit/expression/lexer/Lexer.java:42 | the identifier scanner's match is in the identifier pattern's language, and no longer prefix is |
| `Lexing.ParseFailsOnBareExponent` | src/main/java/com/sk89q/worldedit/expression/lexer/Lexer.java:72-77 | a non-empty number match fails to parse exactly when it is a bare exponent such as `e5` |
| `Lexing.Rule` | src/main/java/com/sk89q/worldedit/expression/lexer/Lexer.java:51-95 | an emitted token is tagged with the offset it starts at and the cursor moves past it; an error is reported at that offset |
| `Lexing.Lexer.NextToken` | src/main/java/com/sk89q/worldedit/expression/lexer/Lexer.java:51-95 | one step of the tokenizing loop emits what the rules give at the cursor and moves the cursor past that token |
| `Lexing.Lexer.Tokenize` | src/main/java/com/sk89q/worldedit/expression/lexer/Lexer.java:43-101 | the tokenizing loop returns the token list of the text from the cursor, or its first error |
| `Lexing.TokenizeText` | src/main/java/com/sk89q/worldedit/expression/lexer/Lexer.java:37-39 | `tokenize` on a fresh lexer gives the token list of the whole text |
| `Lexing.ScanSkipsWhitespace` | src/main/java/com/sk89q/worldedit/expression/lexer/Lexer.java:46-49 | leading whitespace does not change the token list |
| `Lexing.TokensCoverText` | src/main/java/com/sk89q/worldedit/expression/lexer/Lexer.java:46-98 | each token is what the rules emit at its own offset; offsets strictly increase; only whitespace lies between one token's end and the next token's start |
| `Lexing.BlankIffNoTokens` | src/main/java/com/sk89q/worldedit/expression/lexer/Lexer.java:46-49 | a text yields no tokens exactly when it is all whitespace |
| `Lexing.ErrorPosition` | src/main/java/com/sk89q/worldedit/expression/lexer/Lexer.java:73-95 | a lexical error lies at a non-blank offset of the text: a bare exponent that fails to parse, or a character that starts no rule |
| `Lexing.BareExponentFails` | src/main/java/com/sk89q/worldedit/expression/lexer/Lexer.java:69-77 | `e5` is a number match and fails to parse, rather than lexing as an identifier |
| `Lexing.LoneDotFails` | src/main/java/com/sk89q/worldedit/expression/lexer/Lexer.java:84-95 | in `5.` the dot starts no rule and is an unknown character at offset 1 |
| `Levels.RightmostOperator` | src/main/java/com/sk89q/worldedit/expression/parser/Parser.java:223-245 | the index found holds an operator of the level, and no operator of the level lies after it |
| `Levels.SplitParts` | src/main/java/com/sk89q/worldedit/expression/parser/Parser.java:223-245 | a split rejoins to the input at an operator of the level, and the right part holds no operator of the level except possibly its last element; with no split, the input holds none except possibly its last element |
| `Levels.SplitAtRightmost` | src/main/java/com/sk89q/worldedit/expression/parser/Parser.java:223-245 | conversely, the list splits at any level operator that has none of its level after it, the last element excepted |
| `Levels.Process` | src/main/java/com/sk89q/worldedit/expression/parser/Parser.java:223-245 | the right-to-left scan builds exactly that split |
| `Levels.CaretOperation` | src/main/java/com/sk89q/worldedit/expression/parser/Parser.java:121 | as written `^` names no registry operation; corrected it names `pow` |
| `Levels.ProcessLevel` | src/main/java/com/sk89q/worldedit/expression/parser/Parser.java:130-179 | the three level methods compute the level resolution of the list |
| `Levels.ProcessLevel2` | src/main/java/com/sk89q/worldedit/expression/parser/Parser.java:181-221 | the primary level takes the last node and wraps it once per preceding marker |
| `Levels.DrainAcceptsOnlyMarkers` | src/main/java/com/sk89q/worldedit/expression/parser/Parser.java:187-218 | the primary level succeeds exactly when everything before the node is a `~` marker, wrapping the node once per marker |
| `Levels.EmptyIsMissing` | src/main/java/com/sk89q/worldedit/expression/parser/Parser.java:182-184 | an empty list is a missing expression at every level |
| `Levels.BadStartFails` | src/main/java/com/sk89q/worldedit/expression/parser/Parser.java:130-221 | a list that is empty, or starts with a token that is not a `~` marker, fails at every level |
| `Levels.ResolveWithoutOperator` | src/main/java/com/sk89q/worldedit/expression/parser/Parser.java:133-136 | a list with no operator of the level is passed whole to the next level |
| `Levels.ResolveAtOperator` | src/main/java/com/sk89q/worldedit/expression/parser/Parser.java:130-145 | at the rightmost operator, the list is that operation applied to the left part, resolved at the same level, and the right part, resolved at the next level; an unknown operation fails at the operator's position |
| `Levels.SingleNode` | src/main/java/com/sk89q/worldedit/expression/parser/Parser.java:181-186 | a single node resolves to itself at every level |
| `Levels.BinaryUnknown` | src/main/java/com/sk89q/worldedit/expression/parser/Parser.java:140-144 | `a x b` with an operator the registry lacks fails at the operator token's position |
| `Levels.ResolvePlain` | src/main/java/com/sk89q/worldedit/expression/parser/Parser.java:130-221 | resolution builds only two-operand registry calls and prefix negations over the list's own nodes |
| `Levels.LeftAssociative` | src/main/java/com/sk89q/worldedit/expression/parser/Parser.java:130-179 | at every operator level, `^` included, `a x b y c` with both operators known to the registry is `y(x(a, b), c)` |
| `Levels.TighterBindsFirstOnLeft` | src/main/java/com/sk89q/worldedit/expression/parser/Parser.java:130-179 | `a x b y c`, with `x` of the level just tighter than `y`'s and both known, is `y(x(a, b), c)` |
| `Levels.TighterBindsFirstOnRight` | src/main/java/com/sk89q/worldedit/expression/parser/Parser.java:130-179 | `a y b x c`, with `x` of the level just tighter than `y`'s and both known, is `y(a, x(b, c))` |
| `Parsing.Internal` | src/main/java/com/sk89q/worldedit/expression/parser/Parser.java:74-117 | a parsed scope leaves the cursor forward of its start, at the end of the tokens or on the `,` or `)` that stopped it |
| `Parsing.Bracket` | src/main/java/com/sk89q/worldedit/expression/parser/Parser.java:291-303 | a parsed bracket starts at a `(` and leaves the cursor just past the `)` that closes it |
| `Parsing.FunctionCall` | src/main/java/com/sk89q/worldedit/expression/parser/Parser.java:255-289 | a parsed call starts at its `(`, is a call of the named library function, and that function is registered with the call's argument count; with `Corrected` the cursor ends just past a `)` |
| `Parsing.Parser.Parse` | src/main/java/com/sk89q/worldedit/expression/parser/Parser.java:66-72 | `parse` returns the whole-input parse, failing when tokens are left over |
| `Parsing.Parser.ParseInternal` | src/main/java/com/sk89q/worldedit/expression/parser/Parser.java:74-117 | the collecting loop and level resolution compute the scope's parse and leave the cursor where it ends |
| `Parsing.Parser.ParseFunction` | src/main/java/com/sk89q/worldedit/expression/parser/Parser.java:255-289 | a call is parsed and bound to the library function of that name and argument count |
| `Parsing.Parser.ParseArguments` | src/main/java/com/sk89q/worldedit/expression/parser/Parser.java:265-283 | the argument loop parses arguments separated by `,` up to past the closing `)`: at least one argument, with the cursor just past a `)` |
| `Parsing.Parser.ParseBracket` | src/main/java/com/sk89q/worldedit/expression/parser/Parser.java:291-303 | a bracket is `(`, a scope, `)`; it ends just past a `)`, and a missing `)` is reported at the token found instead |
| `Parsing.ParseTokens` | src/main/java/com/sk89q/worldedit/expression/parser/Parser.java:62-64 | `Parser.parse` on a fresh parser is the whole-input parse |
| `Parsing.ParsePlain` | src/main/java/com/sk89q/worldedit/expression/parser/Parser.java:74-117 | a parsed tree refers only to the variable table's slots, holds no negation-operator node, binds registry operations with two operands, and binds each library call to a function registered with its name and argument count |
| `Parsing.CollectKeepsPrefix` | src/main/java/com/sk89q/worldedit/expression/parser/Parser.java:75-113 | collecting only appends to the list already collected |
| `Parsing.LeadingOperatorFails` | src/main/java/com/sk89q/worldedit/expression/parser/Parser.java:110-116 | an input whose first token is one of `+ - * / % ^`, a leading sign included, never parses |
| `Parsing.SignedLiteralMissesOperand` | src/main/java/com/sk89q/worldedit/expression/parser/Parser.java:181-184 | `-1` fails as an expression missing before the `-` |
| `Parsing.UnclosedBracket` | src/main/java/com/sk89q/worldedit/expression/parser/Parser.java:298-299 | `(1` fails as an unmatched opening bracket, reported at the null token whose position is the token count |
| `Parsing.StrayClosingBracket` | src/main/java/com/sk89q/worldedit/expression/parser/Parser.java:105-107 | `1)` ends the scope at the `)`, which is then left over at the end |
| `Parsing.UnknownVariableFails` | src/main/java/com/sk89q/worldedit/expression/parser/Parser.java:84-96 | wherever the collecting loop meets an identifier that is neither followed by `(` nor in the variable table, the scope fails at that token |
| `Parsing.UnknownVariable` | src/main/java/com/sk89q/worldedit/expression/parser/Parser.java:93-96 | for instance, a lone undeclared identifier fails at its own token |
| `Parsing.BracketUnmatched` | src/main/java/com/sk89q/worldedit/expression/parser/Parser.java:291-303 | when a bracket's scope stops at a `,` or at the end rather than at `)`, the bracket fails as unmatched at that token, or at the null token past the end |
| `Parsing.CallBinding` | src/main/java/com/sk89q/worldedit/expression/parser/Parser.java:255-289 | once its arguments are parsed, a call succeeds exactly when a library function of that name and argument count exists, and otherwise fails as not found at the name's token |
| `Parsing.EmptyCallAsWritten` | src/main/java/com/sk89q/worldedit/expression/parser/Parser.java:261-263 | as written, `f()` with `f` a zero-argument library function fails with its `)` left over |
| `Parsing.EmptyCallCorrected` | src/main/java/com/sk89q/worldedit/expression/parser/Parser.java:261-263 | consuming that `)`, `f()` is the call of `f` with no arguments |
| `Parsing.PowerAsWritten` | src/main/java/com/sk89q/worldedit/expression/parser/Parser.java:121 | as written, `a ^ b` fails as an unknown operator at the `^` |
| `Parsing.PowerCorrected` | src/main/java/com/sk89q/worldedit/expression/runtime/Operators.java:45-47 | naming `pow`, `a ^ b` is the power operation on `a` and `b` |
| `Expressions.SlotTableKeys` | src/main/java/com/sk89q/worldedit/expression/Expression.java:47-53 | the table's keys are `e`, `pi` and the declared names |
| `Expressions.SlotTableBelow` | src/main/java/com/sk89q/worldedit/expression/Expression.java:47-53 | every slot of the table is one of the slots allocated |
| `Expressions.SlotTableLast` | src/main/java/com/sk89q/worldedit/expression/Expression.java:51-53 | a name declared twice refers to the slot of its last declaration |
| `Expressions.SlotTableConstants` | src/main/java/com/sk89q/worldedit/expression/Expression.java:49-50 | `e` and `pi` keep slots 0 and 1 unless a declared name replaces them |
| `Expressions.SlotTableInjective` | src/main/java/com/sk89q/worldedit/expression/Expression.java:47-53 | different names refer to different slots |
| `Expressions.DeclareSlots` | src/main/java/com/sk89q/worldedit/expression/Expression.java:49-53 | the constructor's loop builds the table |
| `Expressions.InitialSlots` | src/main/java/com/sk89q/worldedit/expression/Expression.java:49-53 | right after compilation the slots hold `e`, `pi`, and a zero per declared name |
| `Expressions.AssignedUntouched` | src/main/java/com/sk89q/worldedit/expression/Expression.java:58-61 | a slot that none of the written names refers to keeps its value |
| `Expressions.AssignedLastWins` | src/main/java/com/sk89q/worldedit/expression/Expression.java:58-61 | a slot holds the value written by the last name that refers to it |
| `Expressions.BindByName` | src/main/java/com/sk89q/worldedit/expression/Expression.java:58-61 | after writing, a declared name reads the value at the last position where it was given one |
| `Expressions.ConstantsKept` | src/main/java/com/sk89q/worldedit/expression/Expression.java:58-61 | writing values leaves `e` and `pi` unchanged unless they were declared |
| `Expressions.CompiledIsPlain` | src/main/java/com/sk89q/worldedit/expression/Expression.java:47-56 | for either grammar, a compiled tree refers only to the table's slots, below the slot count, and calls only registered library functions with their argument counts |
| `Expressions.CompiledNeverMismatches` | src/main/java/com/sk89q/worldedit/expression/Expression.java:58-64 | for either grammar, evaluating a compiled tree fails only when a library function throws |
| `Expressions.CompiledOptimizeIsIdentity` | src/main/java/com/sk89q/worldedit/expression/Expression.java:66-68 | for either grammar, folding a compiled tree gives the same tree back |
| `Expressions.Expression.constructor` | src/main/java/com/sk89q/worldedit/expression/Expression.java:47-56 | a new expression has fresh slots holding `e`, `pi` and zeros, over the table of its names |
| `Expressions.Expression.Evaluate` | src/main/java/com/sk89q/worldedit/expression/Expression.java:58-64 | the values are written positionally to the names' slots; surplus values fail out of bounds after every name was written; otherwise the result is the tree's value, and its only failure is a library function's |
| `Expressions.Expression.Optimize` | src/main/java/com/sk89q/worldedit/expression/Expression.java:66-68 | the tree is replaced by its folded form, which for a compiled tree is the same tree |
| `Expressions.Compile` | src/main/java/com/sk89q/worldedit/expression/Expression.java:39-56 | `compile` tokenizes, builds the table, parses with the grammar given (`AsWritten` is the source as written), and returns a valid expression whose tree is the compiled tree; its errors are the lexer's or the parser's |

## Left out

- Floating point: values are exact `real`s, and `+ - * /` and `%` with a non-zero divisor are computed exactly. IEEE rounding, infinities and NaN are not modelled. `Math.pow`, division by zero and remainder by zero come from a `FloatOps` parameter.
- Number literals: a literal's value is its exact decimal value. The rounding of `Double.parseDouble` is not modelled. Parsing fails exactly where Java's does, on a mantissa with no digit.
- `e` and `pi` start at the exact values of the shortest decimal forms of the doubles `Math.E` and `Math.PI` (`2.718281828459045` and `3.141592653589793`), not at the binary doubles themselves.
- Reflection: the registry is an enumeration of its static methods, looked up by name and parameter count. The library functions (`Functions`) are a set of (name, argument count) pairs plus a `natives` parameter that gives their results. A throwing library function is a `None` result. The `Functions` class is not part of this model. A library call is modelled as receiving the values of its arguments, evaluated left to right before the call, with the first failing argument's error as the call's. In the source it receives the argument nodes themselves and evaluates them as it chooses.
- `Constant` and `Variable` are not part of this model. Their `toString` output is a `LeafText` parameter. Their node identifiers are the letters the model gives them.
- Character classes: `Character.isWhitespace` is written out for the Basic Multilingual Plane as Java 9 and later define it. Older Java releases also count U+180E, which the model does not. Strings here are sequences of Unicode scalar values, whereas Java strings are sequences of UTF-16 code units. A character outside the Basic Multilingual Plane is one `char` here and two code units in Java. On such a character lexing stops at the same index in both, but the unknown-character error carries the whole code point, where Java's carries the high surrogate. A lone surrogate cannot be represented.
- Exception messages and exception causes are left out. An error is its kind plus the position it reports.
- `Operators.getOperator` in this revision takes an extra position argument, which the parser's calls do not pass, and hands it on to a `Function` constructor that takes no position (Function.java:28). The model follows the parser's calls and `Function`'s constructor and drops the position.
- The commented-out `processLevel1` and `iteratorOf` in the parser are dead code and are not modelled.
- No token ever has the `~` identifier, so the primary level's prefix-negation branch is unreachable from parsed input. It is modelled anyway. There is no unary `+`/`-` in this code: `Parsing.LeadingOperatorFails` and `Parsing.SignedLiteralMissesOperand` state what the code does.
- An unchecked cast that would throw `ClassCastException` is the error `InvalidCast`. This happens for a trailing operator such as `1+`, or a non-node operand at the primary level.
- `Expressions.Expression.ToString` is the tree's rendering and carries no contract of its own. What it produces is stated by `Ast.RenderCall` and `Ast.CallText`.
- `Folding.Optimize`: `Function` and the anonymous prefix negation define no `optimize` of their own. The model assumes the inherited default, which returns the node itself (`Invokable` is not part of this model).

## Findings

| source | as written | input that shows it | evidently intended | confidence | as-written member | corrected member |
|---|---|---|---|---|---|---|
| src/main/java/com/sk89q/worldedit/expression/parser/Parser.java:261-263 | an empty argument list returns the bound function without consuming its `)` | `f()` with a zero-argument library function `f`: the `)` is left over, so the parse fails with extra tokens at the end | the `)` is consumed and `f()` is the call of `f` with no arguments | not executed | `Parsing.EmptyCallAsWritten` | `Parsing.EmptyCallCorrected` |
| src/main/java/com/sk89q/worldedit/expression/parser/Parser.java:121 | `^` is mapped to the operation name `exp`, which the registry lacks (it has `pow`, Operators.java:45-47) | `2^3`: the lookup fails, and the parse fails as an unknown operator at the `^` | `^` is the registry's `pow` | not executed | `Parsing.PowerAsWritten` | `Parsing.PowerCorrected` |

The parser's specification carries a `Grammar` flag. `AsWritten` follows the
code above; `Corrected` consumes the `)` and maps `^` to `pow`. Compilation
(`Expressions.CompileTree`, `Expressions.Compile`) takes the flag as a
parameter. With `AsWritten` it is the source's `compile`, which rejects `2^3`
and `f()`. With `Corrected` it is the evidently intended compiler. Every
property of compiled trees is proved for both.
