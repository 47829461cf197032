# mrq2basic expression front end in Dafny

This project models the front end of the mrq2basic calculator: the path from
one input line, through tokens and a postfix sequence, to an abstract syntax
tree. The model follows the Python code as written, including its quirks.

- **Lexer** (`lexer.py`). It scans the line with one character of lookback and a
  static operator table.
  - Whitespace is skipped.
  - A number literal is a run of `.0123456789` with at most one decimal point.
    A missing leading or trailing digit is filled in with `0`.
  - `+` and `-` are unary exactly when the previous *character* is a key of
    the operator table. They are binary at the start of the line, after `(`,
    after a digit and after whitespace.
  - Parentheses become their own tokens.
  - Any other character stops the scan with "Invalid character".
- **Shunting-yard converter** (`Parser.toPostfix`). It moves operators through
  an operator stack.
  - A smaller precedence number binds tighter.
  - The top is popped only while its precedence is truthy and strictly smaller
    than the incoming one.
  - `(` carries precedence 15, so no operator pops it.
  - `)` pops to the first `(`, or flushes the whole stack when there is none.
  - At the end, the stack is flushed in pop order.
- **Tree builder** (`Parser.toASTree` / `parseASTNodes`). It pops the postfix
  deque from the right.
  - The operator comes first, then its right child.
  - "Invalid Syntax" is raised if the deque is then empty, whatever the
    operator's arity.
  - A left child follows only for an operator of two operands.
  - A lone operator becomes a childless node, and tokens below the root's
    subtree are ignored.

Modules, one per file:

| module | file | content |
|---|---|---|
| `Results` | results.dfy | `Option`, `Result`, the two errors (`InvalidCharacter(c)`, `InvalidSyntax`) |
| `Tokens` | tokens.dfy | the token record as lexer.py and parsing.py use it, `MaxPreced` |
| `Sequences` | sequences.dfy | `Last`, `DropLast`, `Reverse` (pop order), `Filter`, and lemmas about them |
| `Lexing` | lexer.dfy | the operator table, `SymbolToToken`, `IsOperator`, the specification functions `NumberEnd`, `ScanStep`, `LexFrom` and `Lex`, and class `Lexer` (the cursor object) with its methods |
| `LexingProps` | lexer_props.dfy | properties of the lexer |
| `Parsing` | parsing.dfy | the converter as a fold (`Step`, `RunFrom`, `Flush`, `Postfix`); the builder as `BuildChild`/`ParseNodes`/`ToTree` over `Tree` values; classes `TokenDeque`, `ASTNode` and `Parser` with methods proved against those functions |
| `ParsingProps` | parsing_props.dfy | token accounting of the conversion, the stack-order invariant, and exactly which trees the builder gives back from their postorder listing |
| `ParsingExamples` | parsing_examples.dfy | conversions and builds over symbolic tokens |
| `Pipeline` | pipeline.dfy | the lex-then-parse sequence of main.py, and worked inputs |

The methods follow the Python control flow:
- cursor fields updated by `Advance`;
- `while` loops over the current character or token, with explicit deques;
- `ASTNode` objects whose `rChild`/`lChild` fields are assigned after creation.

Each method is proved against a specification function. The properties are
proved about those functions.

Three terms recur in the table below:
- **Buildable.** A tree is *buildable* when the builder can give it back:
  - a non-operator is a leaf;
  - an operator without children is allowed only at the bottom of the deque;
  - an operator of two or more operands has both children;
  - an operator of fewer operands has only a right child, and something must
    sit below that child.
- **Ordered.** A stack is *ordered* when directly beneath each operator there
  is nothing, or an entry of equal or larger precedence.
- **Accounting.** The *accounting* of the conversion has three parts:
  - the output holds every number in input order;
  - the output holds no `)`;
  - every operator is on the stack or in the output, exactly as often as in
    the input.

Some points where the model fixes what the text leaves open:
- **Token record.** tokens.py declares only `type` and `value`, with a
  three-member `TokenType`. That does not match its use in lexer.py:55, 92 and
  97, or parsing.py:32, 54, 81 and 88. The token here is
  `Token(kind, value, preced, isOperator, operands)`, with the `OP_*`,
  `LPAREN` and `RPAREN` kinds.
- **Default fields.** The defaults of the missing fields are not visible, so:
  - parenthesis tokens get `isOperator = false` and 0 operands;
  - number tokens get precedence 0, `isOperator = false` and 0 operands.
- **Number payload.** A number's payload is its normalised literal string.

## Model

The rows below marked *reference definition* name a function that has no
contract of its own: it is the definition of the source's loop or table use
that the methods are proved equal to and that the lemmas are stated about.
The operator table itself is the constant `Lexing.OpSymbolTable`, taken
entry by entry from lexer.py:16-31. Its ranges are stated by
`LexingProps.OperatorTableRanges`.

| member | source | states |
|---|---|---|
| `Lexing.CountDots` | lexer.py:109-116 | reference definition (no contract): the number of decimal points in a literal, the quantity `dpoint_count` tracks |
| `Lexing.NumberToken` | lexer.py:121-126 | reference definition (no contract): the number token of a scanned literal, normalised, with precedence 0, no operator flag and 0 operands |
| `Lexing.SymbolStep` | lexer.py:81-102 | reference definition (no contract): the token of a non-whitespace, non-digit character: unary sign after an operator key, then table operator, `(`, `)`, else None for the error |
| `Lexing.LexFrom` | lexer.py:65-102 | reference definition (no contract): the generator loop from position i: skip, emit and continue, or stop with the invalid character; tokens before the error are dropped |
| `Lexing.Lex` | main.py:10-11 | reference definition (no contract): the token list of a whole line, `LexFrom` from position 0 |
| `Parsing.Step` | parsing.py:41-63 | reference definition (no contract): one iteration of the conversion loop: a number to the output, `(` pushed, `)` closes, an operator pops then is pushed, anything else is skipped |
| `Parsing.RunFrom` | parsing.py:39-65 | reference definition (no contract): the conversion loop as a fold of `Step` over the tokens from index i |
| `Parsing.Flush` | parsing.py:67-68 | reference definition (no contract): the output followed by the stack in pop order |
| `Parsing.Postfix` | parsing.py:34-70 | reference definition (no contract): `toPostfix` from empty deques |
| `Parsing.ParseTree` | parsing.py:13-18 | reference definition (no contract): `parse`: the tree of the postfix form |
| `Pipeline.Front` | main.py:10-16 | reference definition (no contract): one line lexed and then parsed, with the lexer's error passed on |
| `Lexing.SymbolToToken` | lexer.py:48-56 | None exactly when the key is not in the table; otherwise an operator token whose kind, precedence and operand count are the table entry's and whose value is the key |
| `Lexing.IsOperator` | lexer.py:58-63 | true exactly for a present character that is a one-character key of the table (`*/%+-&|!`); false for the absent character before the input |
| `Lexing.NumberEnd` | lexer.py:111-119 | the number scan ends within the input and consumes at least one character when it starts on a digit or on a first decimal point |
| `Lexing.Normalise` | lexer.py:121-124 | the literal is returned unchanged, with a `0` prefixed, or with a `0` appended |
| `Lexing.UnaryToken` | lexer.py:81-84 | the token looked up under `u+` or `u-` is an operator of one operand |
| `Lexing.ScanStep` | lexer.py:67-102 | every iteration of the scan loop that does not fail consumes at least one character and stays within the input |
| `Lexing.Lexer.constructor` | lexer.py:33-38 | a new lexer has read the first character: the cursor is at index 0 and the fields agree with the input |
| `Lexing.Lexer.Advance` | lexer.py:40-46 | the current character becomes the previous one and the next character of the iterator (or None at the end) becomes current; the cursor moves one place, the fields keep agreeing with the input, and after a move the previous character is the input character before the cursor, also at the end of the input |
| `Lexing.Lexer.ScanDigits` | lexer.py:106-119 | the digit loop stops where `NumberEnd` says and has collected exactly the characters it passed; when it moved, the previous character is the last one collected |
| `Lexing.Lexer.TakeCurrent` | lexer.py:118-119 | appending the current character to the literal and advancing moves the cursor one place, and the literal is still the input slice from its start to the cursor |
| `Lexing.Lexer.GenerateNumber` | lexer.py:104-126 | the cursor ends where `NumberEnd` says, and the token is the number token of the normalised consumed literal; when it moved, the previous character is the last one consumed |
| `Lexing.Lexer.Position` | lexer.py:33-46 | the cursor index recovered from the remaining iterator and the current character equals the cursor |
| `Lexing.Lexer.ScanOne` | lexer.py:69-102 | one iteration of the loop does exactly what `ScanStep` says at the cursor, moves the cursor to where that step ends, and leaves the previous character as the input character before the cursor |
| `Lexing.Lexer.GenerateTokens` | lexer.py:65-102 | the collected tokens, or the error, are exactly `LexFrom` from the cursor; on success the cursor is at the end of the input and, if it moved, the previous character is the last input character |
| `Lexing.Tokenize` | main.py:10-11 | a fresh lexer collected into a list gives `Lex(text)` |
| `LexingProps.OperatorTableRanges` | lexer.py:16-31 | every table precedence is between 2 and 9, and so below MAX_PRECED = 15; every entry has 1 or 2 operands, exactly `u+`, `u-` and `!` having one |
| `LexingProps.NumberScan` | lexer.py:111-119 | one number scan consumes a non-empty run of Digits characters with at most one `.`, and stops at the end, at a non-digit, or at a second `.` which it leaves unconsumed |
| `LexingProps.NormaliseLiteral` | lexer.py:121-124 | a scanned literal normalises to one that starts with a digit and ends with one (except the lone `.`, which becomes `0.`), and the number of decimal points is unchanged |
| `LexingProps.NormaliseTrailingDot` | lexer.py:123-124 | a literal ending in `.` that does not start with one gets exactly a `0` appended |
| `LexingProps.ScanStepValid` | lexer.py:67-102 | a loop step fails exactly on a character that is not whitespace, a Digits character, a table key or a parenthesis, and the failure carries that character |
| `LexingProps.ScanStepLexed` | lexer.py:73-99 | every token a step emits is a well-formed number, `(` with precedence 15, `)` with precedence 0, or a table operator |
| `LexingProps.LexedTokens` | lexer.py:65-126 | every token of a successfully lexed line has one of those shapes |
| `LexingProps.LexLength` | lexer.py:67-119 | from position i, at most as many tokens as characters remain |
| `LexingProps.TokenCountBound` | lexer.py:67-119 | a line yields at most as many tokens as it has characters |
| `LexingProps.SignTokens` | lexer.py:23-29 | for `+`/`-`, the unary token is `u+`/`u-` with precedence 3 and one operand, and the binary token has precedence 4 and two operands |
| `LexingProps.SignDecision` | lexer.py:81-89 | a `+`/`-` lexes as the unary token exactly when the previous input character is a table key; otherwise (start of input, after `(`, a digit or whitespace) it is the binary token |
| `LexingProps.LexAllValid` | lexer.py:65-102 | a scan over characters that are all valid never fails |
| `LexingProps.LexOkValid` | lexer.py:65-102 | a scan that succeeds saw only valid characters |
| `LexingProps.LexFirstInvalid` | lexer.py:101-102 | the error of a scan names the first invalid character |
| `LexingProps.LexErrorFirst` | lexer.py:101-102 | a failed scan has a first invalid character, and the error names it |
| `LexingProps.LexErrors` | lexer.py:65-102 | a line lexes without error exactly when all its characters are valid; otherwise the error names the first invalid one and no tokens are returned |
| `LexingProps.SkipWhitespace` | lexer.py:69-71 | a run of whitespace changes nothing about the tokens that follow |
| `LexingProps.WhitespaceOnly` | lexer.py:6 | a line of spaces, tabs and newlines yields no tokens |
| `LexingProps.TrailingWhitespace` | lexer.py:69-71 | appending whitespace to a line never changes its tokens or its error |
| `Parsing.GetTopPreced` | parsing.py:27-32 | None exactly for an empty stack, otherwise the precedence of the top entry |
| `Parsing.PopTighter` | parsing.py:55-63 | the operator loop leaves a prefix of the stack; exactly the entries above it were popped, each with a non-zero precedence strictly below the incoming one, and they reach the output in pop order without the `(` entries; the entry left on top does not pop (so an equal precedence stays) |
| `Parsing.CloseParen` | parsing.py:47-52 | with a `(` on the stack, the stack is cut just below the topmost `(` and the entries above it go to the output in pop order; without one, the whole stack goes to the output and no error is raised |
| `Parsing.BuildChild` | parsing.py:79-83 | a built node has the top token of the deque, has the builder's shape, and the consumed suffix is its postorder listing; the only error is InvalidSyntax |
| `Parsing.ParseNodes` | parsing.py:72-97 | the consumed suffix is the postorder listing of the children; a left child comes only with a right child and under a parent of two or more operands; a non-empty deque always gives a right child; the only error is InvalidSyntax |
| `Parsing.ToTree` | parsing.py:100-111 | None exactly for an empty deque; otherwise the root has the top token and the builder's shape, and its postorder listing is a suffix of the deque |
| `Parsing.TokenDeque.constructor` | parsing.py:15-17 | the deque holds the postfix sequence |
| `Parsing.TokenDeque.Pop` | parsing.py:79 | pop returns the right-most token and removes it |
| `Parsing.ASTNode.constructor` | nodes.py:4-8 | a new node has the token, no children and a one-node tree |
| `Parsing.ASTNode.SetRight` | parsing.py:83 | assigning `rChild` makes the node's tree have that right subtree and keeps the left one |
| `Parsing.ASTNode.SetLeft` | parsing.py:97 | assigning `lChild` makes the node's tree have that left subtree and keeps the right one |
| `Parsing.Parser.constructor` | parsing.py:8-11 | a new parser has read the first token: the cursor is at index 0 |
| `Parsing.Parser.Advance` | parsing.py:20-25 | the next token of the iterator, or None at the end, becomes current, and the cursor moves one place |
| `Parsing.Parser.ToPostfix` | parsing.py:34-70 | the loop over the remaining tokens and the final flush give exactly `Flush(RunFrom(...))`, the fold of one conversion step per token; the cursor ends after the last token |
| `Parsing.Parser.BuildNode` | parsing.py:79-83 | popping a token, making its node and, for an operator, building its children succeeds exactly when `BuildChild` does; the node's tree is `BuildChild`'s and the deque is left as it says |
| `Parsing.Parser.ParseASTNodes` | parsing.py:72-97 | succeeds exactly when `ParseNodes` does; on success the parent's tree carries the children `ParseNodes` gives and the deque is left as it says |
| `Parsing.Parser.ToASTree` | parsing.py:100-111 | null for an empty deque, the error where `ToTree` has one, otherwise a node whose tree is `ToTree`'s |
| `Parsing.Parser.Parse` | parsing.py:13-18 | the tree (or error, or null) of the postfix form of the remaining tokens |
| `Parsing.ParseTokens` | main.py:15-16 | a fresh parser over the tokens gives `ParseTree`'s result |
| `ParsingProps.PostfixAccounts` | parsing.py:41-68 | the postfix holds no `)`, the numbers of the input in order, and every operator as often as the input |
| `ParsingProps.PostfixNumbersInOrder` | parsing.py:41-42 | the number tokens of the postfix are those of the input, in input order |
| `ParsingProps.PostfixOperatorsOnce` | parsing.py:54-68 | every operator token reaches the postfix exactly as often as it occurs in the input |
| `ParsingProps.PostfixHasNoRParen` | parsing.py:47-52 | no `)` token reaches the postfix |
| `ParsingProps.StepAccounts` | parsing.py:39-65 | one conversion step keeps that accounting |
| `ParsingProps.RunAccounts` | parsing.py:39-65 | the whole loop keeps that accounting |
| `ParsingProps.LParenNeverPopped` | parsing.py:56-60 | an incoming operator of precedence at most 15 pops no `(`, so every entry it pops reaches the output, in pop order |
| `ParsingProps.StepOrdered` | parsing.py:39-63 | one conversion step keeps the stack ordered: beneath each operator sits nothing or an entry of equal or larger precedence |
| `ParsingProps.RunOrdered` | parsing.py:39-65 | the whole loop keeps the stack ordered |
| `ParsingProps.BuildRoundTrip` | parsing.py:72-97 | building from `rest` followed by the postorder of a buildable tree gives back that tree and leaves `rest` |
| `ParsingProps.BuiltIsBuildable` | parsing.py:72-97 | every node the builder gives back is buildable |
| `ParsingProps.BuildIff` | parsing.py:72-97 | the builder gives back t from `rest` followed by t's postorder exactly when t is buildable |
| `ParsingProps.ToTreeIff` | parsing.py:100-111 | toASTree gives back t from any deque ending in t's postorder exactly when t is buildable; the tokens below are ignored |
| `ParsingProps.LeafOnTop` | parsing.py:106-111 | a non-operator on top of the deque gives a childless leaf, whatever lies below |
| `ParsingProps.LoneOperator` | parsing.py:75-76 | an operator alone on the deque gives a childless node without error |
| `ParsingProps.EmptyAfterRight` | parsing.py:85-87 | when building the right child empties the deque, parseASTNodes raises Invalid Syntax, whatever the parent's arity |
| `ParsingProps.UnaryGetsRightOnly` | parsing.py:88-90 | a parent of fewer than two operands gets only a right child, the one built from the top of the deque |
| `ParsingExamples.PushWithoutPop` | parsing.py:55-63 | an operator meeting a top that does not pop for it is pushed and the output is unchanged |
| `ParsingExamples.PushAfterPop` | parsing.py:55-63 | an operator meeting a single entry of strictly smaller non-zero precedence pops it to the output and is pushed |
| `ParsingExamples.PostfixNoPop` | parsing.py:54-68 | `a o1 b o2 c` with o1 not popping for o2 (equal precedence included) converts to `a b c o2 o1` |
| `ParsingExamples.PostfixPop` | parsing.py:54-68 | `a o1 b o2 c` with o1 binding strictly tighter converts to `a b o1 c o2` |
| `ParsingExamples.TreeRightNested` | parsing.py:72-111 | the postfix `a b c o2 o1` of binary operators builds `a o1 (b o2 c)` |
| `ParsingExamples.TreeLeftNested` | parsing.py:72-111 | the postfix `a b o1 c o2` of binary operators builds `(a o1 b) o2 c` |
| `ParsingExamples.NothingBelowOperand` | parsing.py:85-87 | the deque `[n, op]` fails with Invalid Syntax: nothing is left after the right child |
| `ParsingExamples.PostfixPrefixOperator` | parsing.py:41-68 | an operator in front of its operand converts to `[operand, operator]` |
| `ParsingExamples.UnmatchedLParen` | parsing.py:44-68 | an unmatched `(` is flushed into the postfix |
| `ParsingExamples.UnmatchedRParen` | parsing.py:47-52 | a `)` with no `(` below it flushes the whole stack and raises nothing |
| `Pipeline.Compile` | main.py:10-16 | lexing then parsing one line gives the error of the lexer or the parser, null for no tokens, or an ASTNode whose tree is `Front(text)`'s |
| `Pipeline.LexedStackOrdered` | parsing.py:55-63 | on the lexer's output the operator stack stays ordered through the whole conversion |
| `Pipeline.LexRightAssoc` | lexer.py:73-89 | `1-2-3` lexes to three numbers and two binary minus tokens |
| `Pipeline.FrontRightAssoc` | parsing.py:56 | `1-2-3` parses as `1-(2-3)`: equal precedences are not popped |
| `Pipeline.LexPrecedence` | lexer.py:73-89 | `2*3+4` lexes to three numbers, `*` and binary `+` |
| `Pipeline.FrontPrecedence` | parsing.py:56 | `2*3+4` parses as `(2*3)+4`, since `*` (precedence 3) binds tighter than `+` (4) |
| `Pipeline.FrontLeadingMinus` | lexer.py:81-89 | `-3` lexes to a binary minus (no previous character) and then fails with Invalid Syntax |
| `Pipeline.FrontNot` | parsing.py:85-87 | `!3` fails with Invalid Syntax, though `!` takes one operand |
| `Pipeline.FrontInvalidCharacter` | lexer.py:101-102 | `2+#3` fails with Invalid character `#`; the tokens before it are not returned |
| `Pipeline.FrontBlank` | parsing.py:103-104 | every line of spaces, tabs and newlines only, the empty line included, gives no tree and no error |
| `Pipeline.LexDoubleDot` | lexer.py:111-124 | `1..2` lexes to the literals `1.0` and `0.2`: the second `.` is not consumed by the first scan |

## Left out

- The main.py REPL loop, `input()` and both `print` calls, parsing.py:16 and main.py:13: I/O. `Pipeline.Compile` models the lex-then-parse sequence of one iteration.
- The `pdb` imports: debugging only.
- The `float(...)` conversion at lexer.py:126: a number token carries its normalised literal string instead, to keep floating point out of the model.
- Generator laziness: `generate_tokens` is modelled as returning the whole token sequence or the error. Collecting it with `list()` discards the tokens yielded before an exception.
- Exception text: "Invalid character: c" and "Invalid Syntax" are the error values `InvalidCharacter(c)` and `InvalidSyntax`.
- The `__repr__` methods of tokens.py and nodes.py: debug formatting.
- tokens.py as written is out of date. The token record is taken from how lexer.py and parsing.py construct and read tokens.
- A token that is none of NUMBER, LPAREN and RPAREN and has `isOperator` unset is skipped by the converter. The model keeps that branch, although the lexer never produces such a token.
- Whitespace elsewhere in the line: the model proves that trailing whitespace never changes the tokens (`LexingProps.TrailingWhitespace`). It states no such lemma for whitespace at the start of the line, which the source also ignores, because the first character's previous character (None) and a whitespace character are both non-operators. Whitespace inside the line can change the tokens: after an operator character it turns a following `+`/`-` from unary into binary (`LexingProps.SignDecision`).
- Parsing.Parser.ParseASTNodes: requires a parent with no children yet. parsing.py only calls it on a node it has just created (lines 80-82, 94-96 and 107-109).
