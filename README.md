# Dice-formula calculator, modelled in Dafny

This project models the interpreter at the heart of the speech-driven D&D dice
demo. `DndCalculator.calculate` turns a recognised phrase such as "3d8 + 1"
into the least and greatest possible totals, the mean total, one random
sample and a canonical text. It works in three steps:

- **Normalisation.** Two regular-expression passes. The first deletes everything
  except Latin and Cyrillic letters, digits, `+` and `-`. The second replaces
  each run of letters with one `d`.
- **Tokenizer.** A left-to-right state machine. It turns the cleaned string into
  `DICE`, `NUMBER` and `OPERATOR` tokens.
- **Parser.** A recursive-descent parser. It reads tokens from a stream that it
  consumes in place and evaluates as it goes. A term is a dice token, or a
  number optionally followed by a dice token (the multiplier). A term may be
  followed by an operator and the *whole rest* of the stream. Chains therefore
  group to the right: `10-3-2` is 9.

Layout, one module per component:

| file | module | what it holds |
|---|---|---|
| option.dfy | `Options` | `Option`, the nullable values of the source |
| tokens.dfy | `Tokens` | the token kinds, `Token`, rendering tokens back to text, the shape of a token list, uniqueness of tokenization |
| outcome.dfy | `Outcomes` | the error kinds, `Outcome` (value or error) |
| normalizer.dfy | `Normalizer` | the two clean-up passes and their properties |
| lexer.dfy | `Lexer` | `Tokenize`, the state machine as a loop |
| results.dfy | `Results` | `CalcResult`, `Plus`, `Minus` and their algebra |
| leaves.dfy | `Leaves` | Kotlin `toInt`/`toString`, the constant leaf, the dice leaf |
| evaluation.dfy | `Evaluation` | `Term` and `Expression`: what the parser computes, as functions of the token list |
| parser.dfy | `Parsing` | the token stream, the random source and the parser, as classes with methods |
| calculator.dfy | `Calculator` | `Calculate` and worked requests |

Modelling choices:

- **Exceptions.** Every exception becomes an `Error` constructor returned in
  `Outcome.Fail`. Checks happen in the same order as in the source.
- **Random source.** `java.util.Random` becomes a `Random` object fed from
  outside by a function `draw: nat -> nat`. The k-th `NextInt(bound)` returns
  `draw(k) % bound`. Every sequence of values the real generator could return
  is `draw` for some choice of `draw`, so nothing the generator can do is
  excluded.
- **Average.** `average` is an exact `real`. Leaves produce half-integers, and
  combining them only adds and subtracts.
- **Parser.** The parser is imperative, as in the source. `Parser.ReadExpression`
  is a recursive method over a `TokenStream` object whose `tokens` it pops and
  pushes back. `Unread` may only put back the token `Read` has just returned,
  which a ghost field checks at every call. `ReadExpression` is proved equal to
  the function `Evaluation.Expression`. The lemmas about the grammar are stated
  on that function.
- **Tokenizer.** `Lexer.Tokenize` is a loop with the source's `currentType`
  register and accumulator. Its contract is declarative: the exact error cases;
  on success, the tokens render back to the input and are well formed.
  `Tokens.RenderInjective` shows that this contract pins the tokens down
  completely.

Behaviour worth knowing, all proved:

- A token list of the tokenizer's shape has a value exactly when it is a
  formula of the grammar and every operand is in [1, 1000]
  (`Evaluation.ExpressionSucceedsExactly`). The random draws never decide
  whether a formula succeeds.
- Subtraction chains group to the right (`Evaluation.SubtractionGroupsRight`,
  `Calculator.SubtractionChain`).
- Subtraction can give `min > max` (`Results.MinusOutOfRange`). The model keeps
  the source's componentwise bounds.
- The text of a result is itself a formula that evaluates to the same result
  (`Evaluation.TextRoundTrip`, `Calculator.RecalculateText`).
- `3 8` is the constant 38, not a missing-operator error. The space is deleted
  before tokenizing (`Calculator.SpacedDigits`). A missing-operator error needs
  two operands with nothing between them, as in `d8d6`
  (`Evaluation.AdjacentOperandsFail`).

## Model

| member | source | states |
|---|---|---|
| `Normalizer.Strip` | src/main/kotlin/demo/DndCalculator.kt:56-58 | only letters, digits, `+` and `-` survive; a string made only of those is returned unchanged; one character is kept exactly when it is one of those |
| `Normalizer.StripConcat` | src/main/kotlin/demo/DndCalculator.kt:56-58 | the first pass works character by character: stripping `a + b` is stripping `a` then `b`, so every kept character survives in order |
| `Normalizer.CollapseLetters` | src/main/kotlin/demo/DndCalculator.kt:59-60 | the only letter left is `d` and no two letters are adjacent; the output is empty exactly when the input is; a leading letter stays a leading letter; the first pass's alphabet is kept |
| `Normalizer.CollapseSplit` | src/main/kotlin/demo/DndCalculator.kt:59-60 | a character that is not a letter survives the second pass, and the parts on each side of it are collapsed independently |
| `Normalizer.CollapseWord` | src/main/kotlin/demo/DndCalculator.kt:59-60 | a non-empty run of letters becomes exactly one `d` |
| `Normalizer.Normalize` | src/main/kotlin/demo/DndCalculator.kt:56-60 | the normalised request uses only `0-9`, `d`, `+`, `-`, which is exactly the alphabet the tokenizer accepts (`Tokens.InFormulaAlphabet`, also used by `Lexer.Lexable`), and never has two `d`s in a row |
| `Normalizer.CollapseFixed` | src/main/kotlin/demo/DndCalculator.kt:59-60 | a string whose only letter is `d`, never doubled, is a fixed point of the letter-run pass |
| `Normalizer.NormalizeFixed` | src/main/kotlin/demo/DndCalculator.kt:56-60 | a request already in the normal alphabet without `dd` is left unchanged |
| `Normalizer.NormalizeIdempotent` | src/main/kotlin/demo/DndCalculator.kt:56-60 | normalising twice is the same as normalising once |
| `Normalizer.NormalizeSplit` | src/main/kotlin/demo/DndCalculator.kt:56-60 | a digit or sign survives normalisation, and the request is normalised on each side of it independently |
| `Normalizer.NormalizeWord` | src/main/kotlin/demo/DndCalculator.kt:56-60 | a word of Latin or Cyrillic letters becomes `d` |
| `Tokens.RenderInjective` | src/main/kotlin/demo/DndCalculator.kt:96-131 | two token lists of the tokenizer's shape that render to the same text are equal, so tokenization is unique |
| `Lexer.Tokenize` | src/main/kotlin/demo/DndCalculator.kt:91-143 | fails with "Empty request" on empty input, with the unary-operator error on a leading sign, and otherwise with "Unexpected character" naming the first unknown character; succeeds exactly when none of these applies; on success the tokens (a dice token rendered as `d` + value) concatenate back to the input, operators are `+` or `-`, numbers are non-empty digit strings placed first or after an operator, and dice values are possibly empty digit strings |
| `Results.Plus` | src/main/kotlin/demo/DndCalculator.kt:22-30 | adding two results with the average halfway between their bounds gives such a result; adding two results whose samples lie within their bounds gives such a result |
| `Results.Minus` | src/main/kotlin/demo/DndCalculator.kt:32-40 | subtracting keeps the average halfway between the bounds; the spread `max - min` of the difference is the difference of the spreads, so it can be negative |
| `Results.MinusOutOfRange` | src/main/kotlin/demo/DndCalculator.kt:32-40 | `minus` of two in-range results can give `min > max` (`1 - d6`) |
| `Results.MinusUndoesPlus` | src/main/kotlin/demo/DndCalculator.kt:22-40 | subtracting what was added restores min, max, average and sample; the texts are joined with `+` and `-` |
| `Results.PlusAssociative` | src/main/kotlin/demo/DndCalculator.kt:22-30 | `plus` is associative, text included |
| `Results.MinusGroupsRight` | src/main/kotlin/demo/DndCalculator.kt:32-40 | `a - (b - c)` exceeds `(a - b) - c` by `2c` in every number and has the same text |
| `Leaves.ParseIntDigits` | src/main/kotlin/demo/DndCalculator.kt:222 | `toInt` gives a 32-bit value, reads only an optional sign followed by at least one digit, and on a plain digit string succeeds exactly when its base-ten value fits an `Int`, giving that value |
| `Leaves.DecimalString` | src/main/kotlin/demo/DndCalculator.kt:229 | `toString` of a natural number is a non-empty digit string |
| `Leaves.DecimalStringLeadingDigit` | src/main/kotlin/demo/DndCalculator.kt:229 | `toString` writes one digit exactly for numbers below 10 and never a leading zero: only 0 starts with `0` |
| `Leaves.DecimalRoundTrip` | src/main/kotlin/demo/DndCalculator.kt:222-229 | reading back the decimal text of a number with `toInt` gives the number |
| `Leaves.NumberLeaf` | src/main/kotlin/demo/DndCalculator.kt:221-231 | succeeds exactly when the string reads as a number in [1, 1000]; fails with the unreadable-number error, else with the unsupported-number error; on success min, max, average and sample all equal the number and the text is its decimal form, which reads back as it |
| `Leaves.RollSumBounds` | src/main/kotlin/demo/DndCalculator.kt:202-204 | the sum of `multiplier` rolls of a `faces`-sided die lies between `multiplier` and `multiplier * faces` |
| `Leaves.DiceTextParts` | src/main/kotlin/demo/DndCalculator.kt:206-210 | the dice text ends with `d` and the face count; before the `d` there is nothing exactly when the multiplier is 1, and otherwise the multiplier's base-ten digits |
| `Leaves.DiceLeaf` | src/main/kotlin/demo/DndCalculator.kt:195-212 | succeeds exactly when the multiplier and the face count are in [1, 1000]; fails on a multiplier outside [1, 1000], then on an unreadable face count (including the empty one), then on a face count outside [1, 1000]; otherwise min is the multiplier, max is faces times multiplier, the average is halfway, the sample is within the bounds, the text is `d<value>` for multiplier 1 and `<multiplier>d<value>` otherwise, and exactly `multiplier` draws are used |
| `Evaluation.Term` | src/main/kotlin/demo/DndCalculator.kt:155-169 | a term takes one or two tokens, none an operator, two exactly when a number is followed by a dice token; its value is centered and in range |
| `Evaluation.Expression` | src/main/kotlin/demo/DndCalculator.kt:154-186 | every successful value has its average halfway between its bounds |
| `Evaluation.Rest` | src/main/kotlin/demo/DndCalculator.kt:171-185 | what follows a term keeps the result centered and never gives back draws |
| `Evaluation.Combine` | src/main/kotlin/demo/DndCalculator.kt:176-183 | the right operand's error wins; with a value on the right, an operator other than `+` or `-` fails; the result keeps the right operand's draws and stays centered |
| `Evaluation.OnlyPlusInRange` | src/main/kotlin/demo/DndCalculator.kt:171-185 | a formula whose operators are all `+` has `min <= generated <= max` |
| `Evaluation.TrailingOperatorFails` | src/main/kotlin/demo/DndCalculator.kt:168-177 | a token list that ends with an operator, such as `3+`, fails |
| `Evaluation.OperatorForTermFails` | src/main/kotlin/demo/DndCalculator.kt:155-177 | an operator where a term should start, at the front or right after another operator (`3++4`), makes the formula fail |
| `Evaluation.AdjacentOperandsFail` | src/main/kotlin/demo/DndCalculator.kt:171-175 | two operands with no operator between them (other than a number followed by its dice token), such as `d8d6`, make the formula fail |
| `Evaluation.OperandOutOfLimitFails` | src/main/kotlin/demo/DndCalculator.kt:195-231 | an operand token, wherever it stands, that `toInt` cannot read or whose value lies outside [1, 1000] makes the formula fail |
| `Evaluation.GrammaticalSucceeds` | src/main/kotlin/demo/DndCalculator.kt:154-186 | a token list of the tokenizer's shape that is a formula of the grammar (terms separated by single operators, nothing dangling) with every operand in [1, 1000] has a value, whatever the random draws |
| `Evaluation.ExpressionSucceedsExactly` | src/main/kotlin/demo/DndCalculator.kt:154-186 | a token list of the tokenizer's shape has a value exactly when it is a formula of the grammar and every operand is in [1, 1000]; each way of failing this is one of the failure lemmas above |
| `Evaluation.SubtractionGroupsRight` | src/main/kotlin/demo/DndCalculator.kt:176-180 | `x-y-z` over constants evaluates to `x - y + z`: the right-hand side is the whole remaining expression |
| `Evaluation.LeadTerm` | src/main/kotlin/demo/DndCalculator.kt:206-229 | the text of a term, cut into tokens, is a well-formed term that gives the same value with the same draws |
| `Evaluation.TextRoundTrip` | src/main/kotlin/demo/DndCalculator.kt:171-185 | the text of a successful result cuts into a well-formed token list (every dice token with its face count) that evaluates to the very same result, text, sample and draws included |
| `Evaluation.ThreeD8PlusOne` | src/test/kotlin/demo/DndCalculatorTest.kt:10-13 | the tokens of `3d8+1` give min 4, max 25, average 14.5, a sample in [4, 25] and the text `3d8+1` |
| `Parsing.TokenStream.constructor` | src/main/kotlin/demo/DndCalculator.kt:62 | the stream starts with the tokenizer's list |
| `Parsing.TokenStream.Read` | src/main/kotlin/demo/DndCalculator.kt:65-67 | returns and removes the first token, or returns nothing at the end, and remembers what it returned |
| `Parsing.TokenStream.Unread` | src/main/kotlin/demo/DndCalculator.kt:69-71 | may only be given the token `Read` has just returned, and puts it back in front, once |
| `Parsing.Random.constructor` | src/main/kotlin/demo/DndCalculator.kt:153 | the parser's random source starts at the first of the outside draws |
| `Parsing.Random.NextInt` | src/main/kotlin/demo/DndCalculator.kt:203 | returns a value in `[0, bound)`, the next one from the outside source |
| `Parsing.Parser.Parse` | src/main/kotlin/demo/DndCalculator.kt:150-152 | same result as `ReadExpression` |
| `Parsing.Parser.ReadExpression` | src/main/kotlin/demo/DndCalculator.kt:154-186 | fails exactly when `Expression` of the stream's tokens fails, with the same error; otherwise returns its value, has read every token and has used exactly its draws; every token it pushes back is the one it has just read, which `Unread`'s precondition demands |
| `Parsing.Parser.DiceResult` | src/main/kotlin/demo/DndCalculator.kt:195-212 | the loop summing `multiplier` rolls computes `DiceLeaf`: same error or same value, and advances the random source by `multiplier` draws |
| `Calculator.Calculate` | src/main/kotlin/demo/DndCalculator.kt:55-73 | an empty normalised request fails with "Empty request", one starting with a sign with the unary-operator error; any other has exactly one tokenization, the result is its evaluation, and it succeeds exactly when that tokenization is a formula of the grammar whose operands are all in [1, 1000] |
| `Calculator.RecalculateText` | src/main/kotlin/demo/DndCalculator.kt:55-73 | the text of a result is already normalised, does not start with a sign, has a tokenization, and every tokenization of it evaluates to that same result |
| `Calculator.CalculateTwice` | src/main/kotlin/demo/DndCalculator.kt:55-73 | `calculate` applied to the text of its own successful result, with the same random draws, gives that result again |
| `Calculator.SimpleTest` | src/test/kotlin/demo/DndCalculatorTest.kt:8-14 | `calculate("3d8+1")` has min 4, max 25, average 14.5, a sample in [4, 25] and text `3d8+1` |
| `Calculator.SubtractionChain` | src/main/kotlin/demo/DndCalculator.kt:171-185 | `calculate("10-3-2")` is 9 in every number, not 5 |
| `Calculator.SpacedDigits` | src/main/kotlin/demo/DndCalculator.kt:56-60 | `calculate("3 8")` is the constant 38 |
| `Calculator.BlankRequest` | src/main/kotlin/demo/DndCalculator.kt:137-141 | `calculate("   ")` fails with "Empty request" |

## Left out

- Speech capture, the streaming calls to the recogniser and synthesiser, the executor thread, the stop flags and audio playback are not part of this model. `SpeechKitService.kt` is all I/O and concurrency.
- The JavaFX window and the spoken-phrase building in `MainController.kt` and `MainApp.kt` are not part of this model. They are UI glue around `calculate`.
- The pseudo-random algorithm of `java.util.Random` is not modelled. Its outputs come from the `draw` function supplied to `Calculate`.
- `Double` rounding of `average` is not modelled. The exact value is a half-integer, and the model keeps it as a `real`.
- 32-bit overflow of `Int` sums and differences in long `+`/`-` chains is not modelled. Integers are unbounded. The leaves never overflow, because their values are at most 1000 * 1000.
- `Leaves.ParseInt` accepts only ASCII digits. Kotlin's `toInt` also accepts other Unicode decimal digits, but tokens only ever hold ASCII digits.
- The log line in `calculate` is not modelled.
- Kotlin strings are UTF-16. For a character outside the Basic Multilingual Plane, "Unexpected character" would name a surrogate half, while the model names the whole character. Such a character never reaches the tokenizer, because normalisation deletes it.
- Error messages are reduced to the error kind and the fragment they name.
- After a failure the model does not say what is left in the token stream or how many draws were used. The source discards both.
