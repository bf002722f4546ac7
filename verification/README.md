# Compute: tokenizer and backtracking operator parser, in Dafny

This project models the front end of the Compute expression language. It has three parts:

- **The operator table.** Nine priority levels of operators, each operator being an id, a kind (`chain` or `value`) and a pattern of signs and expression holes. From the table come:
  - the sign list (every sign of every pattern, first occurrence first);
  - the level ids;
  - the flat operator list tagged with priority and associativity;
  - `popArgs`, which takes an operator's arguments off the expression stack.
- **The tokenizer.** It cuts the source at whitespace, then at each sign of the sign list in turn. It then merges an exponent literal such as `1e+5`, which the sign `+` has cut in three, back into one `#` token.
- **The parser.** A state machine with three states:
  - 0: before an expression;
  - 1: after an expression;
  - 2: a sign must come next.
  
  It keeps a stack of pending operators and a stack of finished expressions. Where several operators could apply, it forks environments, which wait in a queue. On a syntax error it backtracks to the next environment, remembering the failure that got furthest.

Modules:

| module | holds |
|---|---|
| `Common` | The table, `signs`, `pri_ids`, `opers`, `popArgs` and the error kinds |
| `Tokenizer` | `tokenize`, parameterised by the sign list |
| `ShippedTokens` | `tokenize` with the sign list of the shipped table, and the signs it shadows |
| `Grouping` | `is_exp_start`/`is_exp_end`, `get_first_sign`, `group_with_sign` and the two operator maps |
| `Parser` | `get_oper2parse`, `push_exp`, `check_oper`, `backtrack`, one turn of the parse loop (`Step`) and the loop itself (`Run`, `Parse`) |
| `ParseFacts` | Properties of the loop |
| `Precedence`, `Brackets` | Parses of `2 + 3 * 4`, `2 * 3 + 4 * 5`, `- 2 + 3`, `( 2 + 3 ) * 4` and `f ( 3 )`, proved step by step for every grammar that files those operators as the table does |
| `TableFacts`, `Shipped` | Facts about the shipped table, and the same parses on the grammar actually built from it |

The parser is modelled over a `Grammar` value: the operator list, the level ids and the two sign-keyed operator maps. `Grouping.BuildGrammar` builds it from a table, as the module-level constants of `parser.ts` do. Tokens are strings with the source's prefixes: `*` for a sign, `#` for a number or name, and `?` for a fragment the tokenizer has not resolved yet.

Where the written description of the language and the code disagree, the model follows the code:

- **An unclosed bracket is accepted.** The final drain pops every pending operator without looking at what it still expects, so `( 2 + 3` parses as `pri(add(2, 3))`. The final drain is `DrainSpec` and `RunDrain`.
- **Call and index syntax never parse.**
  - In the state-1 fork, `check_oper` runs on an operator whose leading hole has already been shifted off. So `f ( 3 )` lands in state 2, expecting `)` while `3` comes next.
  - In state 2, `check_oper` does not remove the sign it checked, so even the expected sign leaves the parser in state 2 forever.
  - `Brackets.CallNeedsSign` and `ParseFacts.NeedSignNeverSucceeds` state both.
- **`<`, `>` and `$` shadow longer signs.** The sign list cuts fragments in first-occurrence order, and `<` comes before `<=` (likewise `>`/`>=` and `$`/`$=`). A sign that holds an earlier sign of the list is therefore never emitted (`Tokenizer.ShadowedNeverEmitted`); for the shipped list, `<=`, `>=` and `$=` never come out of `tokenize` (`ShippedTokens.ShippedShadowed`).
- **The decimal branch of the exponent fixup is dead.** `.` is itself a sign and is cut before the fixup runs, so the mantissa of a merged exponent literal is always an integer (`Tokenizer.DecimalBranchDead`, and `ShippedTokens.ShippedDecimalBranchDead` for the shipped list).
- **The exponent fixup merges across whitespace.** It looks at the fragments only, after the whitespace has been dropped, so `1e + 5` gives the same single number token as `1e+5`. `Tokenizer.EveryTripleMerged` states the merge for any fragments.

## Model

| member | source | states |
|---|---|---|
| Common.FindOper | src/common.ts:507 | Nothing is found exactly when no entry has the id; otherwise the result is the first entry with that id |
| Common.PopEach | src/common.ts:508 | Popping n succeeds exactly when the stack holds n values, and fails with the missing-arguments internal error otherwise. On success the stack loses exactly its top n values, which come out top first |
| Common.PopArgsSpec | src/common.ts:506-509 | Fails with id-not-found when no operator has the id, and with missing-arguments when the stack is shorter than the arity. Otherwise it removes exactly arity-many values, and the remaining stack followed by the arguments is the original stack, so the arguments are in push order |
| Common.HolesCount | src/common.ts:508 | The number of holes in a pattern is the number of expression arguments the pattern contributes |
| Common.ArityHoles | src/common.ts:455-466 | A chain operator takes one argument for its outer expression plus one per hole of its pattern; a value operator takes one per hole |
| Common.DedupSpec | src/common.ts:409-411 | Removing duplicates keeps every element and no other, leaves no duplicate, and orders elements by first occurrence, as a JavaScript Set does |
| Common.SignsSpec | src/common.ts:409-411 | The sign list has no duplicates, and holds exactly the signs that occur in some pattern of the table, in order of first occurrence |
| Common.PriIds | src/common.ts:420 | Entry n of the level-id list is the id of level n |
| Common.IndexOf | src/parser.ts:94 | -1 exactly when the value is absent; otherwise the first position holding it |
| Common.OpersSpec | src/common.ts:429 | The flat operator list has one entry per operator of the table. Operator j of level p is found at its level's offset plus j, tagged with priority p and the level's associativity. Every entry's priority names a level |
| Tokenizer.SplitWhitespace | src/tokenizer.ts:7 | The fragments hold no whitespace, and their concatenation is the input with its whitespace deleted |
| Tokenizer.SplitWhitespaceRejoin | src/tokenizer.ts:7 | Splitting at single whitespace characters gives one more piece than the input has whitespace characters. Putting each whitespace character back between its neighbouring pieces rebuilds the input exactly, so the empty pieces between adjacent whitespace are kept |
| Tokenizer.SplitJoin | src/tokenizer.ts:9 | Splitting at a separator and joining the pieces with it gives back the input |
| Tokenizer.SplitPieces | src/tokenizer.ts:9 | No piece contains the separator, and every piece occurs in the input. Each cut is at the leftmost occurrence: no piece but the last, followed by all but the last character of the separator, contains the separator, so a self-overlapping separator such as `==` is cut where JavaScript's `split` cuts it |
| Tokenizer.OverlapSplit | src/tokenizer.ts:9 | `"==="` split at `==` gives `""` and `"="`, the leftmost cut |
| Tokenizer.SignAndPiece | src/tokenizer.ts:9 | A sign token precedes every piece, so after the leading sign is dropped, signs and pieces alternate |
| Tokenizer.PayloadsDropEmpty | src/tokenizer.ts:9 | Dropping the empty `?` fragments loses no text |
| Tokenizer.CutEachShape | src/tokenizer.ts:8-10 | The cut over the whole sign list loses no text. Every remaining fragment avoids all signs, and every sign token carries a sign that holds no earlier sign of the list |
| Tokenizer.MergeShape | src/tokenizer.ts:11-24 | The fixup scan turns every fragment into a finished token without losing, duplicating or reordering any text |
| Tokenizer.NoOverlap | src/tokenizer.ts:13-15 | Two places where the fixup could merge never overlap: the next one starts at least three fragments later, since a mantissa ends in `e` and an integer ends in a digit |
| Tokenizer.EveryTripleMerged | src/tokenizer.ts:12-17 | Wherever a mantissa ending in `e`, a `+` or `-` sign and an integer stand in a row, the fixup's output holds the number token made of the three texts joined |
| Tokenizer.TokenizeSpec | src/tokenizer.ts:6-26 | Every token is a sign token for an unshadowed sign of the list, or a non-empty whitespace-free `#` token that holds no sign or is an exponent literal. The tokens' texts concatenate to the source with its whitespace deleted |
| Tokenizer.TokenizeClassify | src/tokenizer.ts:18-23 | No token of `tokenize` is neither a sign nor a number, and every sign token carries a sign of the list |
| Tokenizer.Classify | src/parser.ts:240-241 | A token is a sign exactly when it starts with `*` and a number exactly when it starts with `#`, and the carried text is the rest of the token |
| Tokenizer.ShadowedNeverEmitted | src/tokenizer.ts:8-10 | A sign that contains an earlier sign of the list never appears as a token, whatever the source text |
| Tokenizer.DecimalBranchDead | src/tokenizer.ts:13 | When `.` is in the sign list, every fragment the fixup merges has a dot-free integer mantissa |
| Tokenizer.ExponentExample | src/tokenizer.ts:13-16 | With `+` as a sign, `1e+5` becomes the single number token `1e+5` |
| ShippedTokens.ShippedValidSigns | src/common.ts:409-411 | Every sign of the shipped list is non-empty and free of whitespace, the list is not empty, and `.` is in it |
| ShippedTokens.Tokenize | src/tokenizer.ts:6-26 | With the shipped sign list, every token is a sign token for an unshadowed sign of that list, or a non-empty whitespace-free `#` token that holds no sign or is an exponent literal. The tokens' texts concatenate to the source with its whitespace deleted |
| ShippedTokens.ShippedClassify | src/tokenizer.ts:8-23 | Every token of the shipped `tokenize` is a sign or a number, and every sign token carries a sign of the shipped list |
| ShippedTokens.ShippedDecimalBranchDead | src/tokenizer.ts:13 | With the shipped list, every fragment the fixup merges has a dot-free integer mantissa, so the decimal alternative of the pattern never matches |
| ShippedTokens.ShadowedPair | src/tokenizer.ts:8-10 | When a sign of the list begins with an earlier sign of the list, its sign token never appears, whatever the source text |
| ShippedTokens.OrderWithinLevel | src/common.ts:409-411 | Take a second sign that no earlier level uses. A sign used by an operator of the same level that stands before every operator of that level using the second sign comes before the second sign in the sign list |
| ShippedTokens.OrderAcrossLevels | src/common.ts:409-411 | A sign used at an earlier level than any use of a second sign comes before it in the sign list |
| ShippedTokens.LtBeforeLeq | src/common.ts:298-318 | In the shipped sign list `<` comes before `<=` |
| ShippedTokens.GtBeforeGeq | src/common.ts:308-328 | In the shipped sign list `>` comes before `>=` |
| ShippedTokens.LocBeforeCas | src/common.ts:125-355 | In the shipped sign list `$` comes before `$=` |
| ShippedTokens.ShippedShadowed | src/tokenizer.ts:8-10 | The shipped `tokenize` never yields the sign tokens `<=`, `>=` or `$=`, whatever the source text |
| Grouping.SelectStartPartition | src/parser.ts:126-128 | The two filtered lists together are a permutation of the operator list, split by whether the operator starts with an expression. Value operators fall on the sign-start side and do not end with an expression |
| Grouping.FirstSignSpec | src/parser.ts:71-73 | Fails with the no-sign internal error exactly when the pattern is all holes; otherwise returns the sign of the first sign item |
| Grouping.LookupSpec | src/parser.ts:113-117 | A sign has no group exactly when it is not a key; otherwise its group is the one filed under it |
| Grouping.FileSpec | src/parser.ts:110-119 | Filing appends the operator to its sign's group, creating the key at the end if new, and leaves every other group as it was |
| Grouping.CollectSpec | src/parser.ts:108-119 | Keys are distinct, a sign is a key exactly when some operator starts with it, and each group holds that sign's operators in list order |
| Grouping.SortByLengthSpec | src/parser.ts:120-122 | The sort is a permutation, orders patterns longest first, and is stable: operators of equal pattern length keep their order |
| Grouping.GroupWithSignSpec | src/parser.ts:108-124 | Fails with no-sign exactly when some operator lacks a sign. Otherwise it has distinct non-empty groups, one per first sign, each holding that sign's operators stably sorted longest first |
| Parser.RestItems | src/parser.ts:100 | The pattern is the leading hole if any, the item after it, the remaining items and the trailing hole if any, in that order; when those overlap nothing remains |
| Parser.OperToPendingSpec | src/parser.ts:79-102 | Keeps the id and the remaining items. The priority is null exactly when the operator does not end with an expression. Otherwise it is the level for a right-associative operator, the level minus one for an unlimited hole, and the first index of the limit level among the level ids (-1 if absent) |
| Parser.PushExp | src/parser.ts:158-165 | On success exactly the top pending operator is removed; a failure is one of the popArgs internal errors |
| Parser.PushExpSpec | src/parser.ts:158-165 | Replaces the top arity-many expressions by one node of the popped operator's id with those arguments in order, or fails as popArgs does |
| Parser.CheckOperSpec | src/parser.ts:172-189 | A sign next means state 2 with nothing changed. A hole next is shifted off, for state 0. An operator with nothing left and a priority stays open, for state 0. One with nothing left and no priority is reduced, for state 1. State 2 always has a sign next |
| Parser.UnwindSpec | src/parser.ts:328-330 | The operators left are a prefix of the stack. Exactly the topmost run of operators whose priority is below the incoming level has been reduced, and a null priority stops the run |
| Parser.ReduceTimes | src/parser.ts:295-299 | Reducing n times removes exactly the top n pending operators, or fails with a popArgs error |
| Parser.LastOpen | src/parser.ts:287 | The index of the last pending operator that still expects items, or -1; no operator above it expects anything |
| Parser.DrainSpec | src/parser.ts:365-377 | With no pending operator the result is the top expression; otherwise a successful drain yields a node of the bottom pending operator |
| Parser.Record | src/parser.ts:216-222 | A failure replaces the recorded one exactly when it is further into the input, or at the same position with a strictly greater priority argument |
| Parser.RecordTies | src/parser.ts:248-250 | The first failure is always recorded, and an unexpected sign (priority -5) loses a tie against a missing expression at the same position, in either order |
| Parser.Backtrack | src/parser.ts:216-224 | Resumes the front of the queue with the rest queued behind it, or ends the parse with the recorded failure when the queue is empty |
| Parser.ForkBefore | src/parser.ts:254-268 | One environment per candidate, in candidate order, each one token further on with that candidate's pending form pushed and its starting state |
| Parser.ForkAfterOne | src/parser.ts:321-338 | A successful fork is one token further on, with the candidate's pending form on top of the stack and the candidate's starting state |
| Parser.ForkAfterSpec | src/parser.ts:319-342 | The forks succeed exactly when every candidate's fork does, and fork i is candidate i's environment |
| Parser.ForkAfterFails | src/parser.ts:321-330 | A failing fork list fails with the error of its first failing candidate, every earlier candidate having succeeded |
| ParseFacts.BuildGrammarWF | src/parser.ts:126-128 | Every group of a built grammar is non-empty |
| ParseFacts.StepWF | src/parser.ts:228-358 | From a well-formed configuration one turn never reaches a broken state, and leads to a well-formed configuration. Well-formed means no environment past the input, state 2 only with a sign next, and only syntax errors recorded |
| ParseFacts.ParseWF | src/parser.ts:196-378 | On a grammar built from any table, parsing never reaches a broken state, for any tokens |
| ParseFacts.ForkOrderBefore | src/parser.ts:254-268 | After a state-0 fork the first candidate runs now, the others are queued in candidate order ahead of the old queue, and the recorded failure is kept |
| ParseFacts.ForkOrderAfter | src/parser.ts:319-344 | After a state-1 fork the first candidate's environment goes through check_oper and runs now. Candidates 2..n are queued in order, untouched by check_oper, ahead of the old queue |
| ParseFacts.AdjacentExpressions | src/parser.ts:282-285 | A non-sign after an expression backtracks with the two-expressions error, which ends the parse when nothing is queued and nothing got further |
| ParseFacts.ParseAdjacentNumbers | src/parser.ts:271-285 | Two numbers in a row fail with the two-expressions error at position 1, on every grammar |
| ParseFacts.AtEnd | src/parser.ts:228-230 | At the end of input, state 1 drains the stacks. State 0 backtracks with expression-at-end. State 2 backtracks with the required sign |
| ParseFacts.ParseEmpty | src/parser.ts:228-229 | Empty input fails with expression-at-end at position 0 |
| ParseFacts.NeedSignStep | src/parser.ts:347-358 | In state 2 the required sign only advances the head, with the state unchanged. Any other token backtracks with sign-required, and the end of input with sign-at-end |
| ParseFacts.NeedSignNeverSucceeds | src/parser.ts:347-358 | An environment in state 2 with nothing queued never produces a parse, however long the loop runs |
| ParseFacts.ClosingSign | src/parser.ts:287-307 | When the awaited sign arrives, the operators below the awaiting one are untouched, those above it are gone, the awaiting one stays unless completed, and the queue and recorded failure are unchanged |
| ParseFacts.StepNumber | src/parser.ts:271-277 | A number in state 0 is pushed, for state 1 one token on |
| ParseFacts.StepOther | src/parser.ts:271-279 | In state 0 a token that is neither a sign nor a number is consumed without any other effect |
| ParseFacts.StepExtend | src/parser.ts:319-344 | With one candidate, state 1 unwinds the stack towards the candidate's level, pushes it and applies check_oper |
| ParseFacts.StepClose | src/parser.ts:294-304 | A matching sign reduces everything above the awaiting operator, shifts its sign, and applies check_oper |
| ParseFacts.RunDrain | src/parser.ts:365-377 | At the end of input in state 1 the parse result is the drain of the stacks |
| Precedence.AddMul | src/parser.ts:319-344 | `2 + 3 * 4` parses as add(2, mul(3, 4)) on every grammar with the arithmetic operators |
| Precedence.MulAddMul | src/parser.ts:328-330 | `2 * 3 + 4 * 5` parses as add(mul(2, 3), mul(4, 5)): the incoming `+` reduces the pending `*` |
| Precedence.NegAdd | src/parser.ts:254-344 | `- 2 + 3` parses as add(neg(2), 3): prefix minus binds tighter than addition |
| Precedence.DrainTwoBinary | src/parser.ts:365-377 | Draining two pending binary operators nests the upper one as the right argument of the lower |
| Brackets.CloseGroup | src/parser.ts:295-304 | The closing bracket reduces the sum inside, then completes the bracket node |
| Brackets.GroupMul | src/parser.ts:287-307 | `( 2 + 3 ) * 4` parses as mul(pri(add(2, 3)), 4) |
| Brackets.GroupUnclosed | src/parser.ts:364-376 | `( 2 + 3` with no closing bracket parses as pri(add(2, 3)): at the end of input the drain pops the bracket although it still waits for `)` |
| Brackets.CallNeedsSign | src/parser.ts:319-356 | `f ( 3 )` fails at position 2 requiring `)` |
| TableFacts.ShippedOperatorIdsUnique | src/common.ts:69-405 | No two operators of the table share an id |
| TableFacts.ShippedLevelIdsUnique | src/common.ts:420 | No two levels share an id |
| TableFacts.ShippedSigned | src/common.ts:69-405 | Every operator of the table has at least one sign in its pattern |
| TableFacts.SignedBuilds | src/parser.ts:108-128 | A table whose every operator has a sign builds a grammar without the no-sign internal error |
| TableFacts.ShippedBuilds | src/parser.ts:126-128 | The shipped table builds a grammar |
| Shipped.FindEntries | src/common.ts:507 | With distinct ids, looking up any entry's id finds that entry |
| Shipped.FindPlaced | src/common.ts:429 | With distinct ids, looking up operator j of level p finds it tagged with priority p and its level's associativity |
| Shipped.ShippedFinds | src/common.ts:70-269 | The shipped add, mul, neg, pri and cal entries are found with their patterns, levels and associativity |
| Shipped.ShippedGroup | src/parser.ts:126-128 | An operator that alone owns its side and first sign is the whole group for that sign |
| Shipped.ShippedPlus | src/parser.ts:128 | On the shipped table, `+` after an expression has only add as candidate |
| Shipped.ShippedTimes | src/parser.ts:128 | On the shipped table, `*` after an expression has only mul as candidate |
| Shipped.ShippedCall | src/parser.ts:128 | On the shipped table, `(` after an expression has only cal as candidate |
| Shipped.ShippedMinus | src/parser.ts:126 | On the shipped table, `-` before an expression has only neg as candidate |
| Shipped.ShippedParen | src/parser.ts:126 | On the shipped table, `(` before an expression has only pri as candidate |
| Shipped.ShippedArithmetic | src/parser.ts:126-128 | The grammar built from the shipped table files the arithmetic operators as the examples assume |
| Shipped.ShippedAddMul | src/parser.ts:196-378 | With the shipped grammar, `2 + 3 * 4` parses as add(2, mul(3, 4)) |
| Shipped.ShippedMulAddMul | src/parser.ts:196-378 | With the shipped grammar, `2 * 3 + 4 * 5` parses as add(mul(2, 3), mul(4, 5)) |
| Shipped.ShippedNegAdd | src/parser.ts:196-378 | With the shipped grammar, `- 2 + 3` parses as add(neg(2), 3) |
| Shipped.ShippedGroupMul | src/parser.ts:196-378 | With the shipped grammar, `( 2 + 3 ) * 4` parses as mul(pri(add(2, 3)), 4) |
| Shipped.ShippedGroupUnclosed | src/parser.ts:196-378 | With the shipped grammar, `( 2 + 3` parses as pri(add(2, 3)) |
| Shipped.ShippedCallNeedsSign | src/parser.ts:196-378 | With the shipped grammar, `f ( 3 )` fails at position 2 requiring `)` |

## Left out

- **Shared state in forks.** In the source, forked environments share one `Oper2Parse` object per candidate. The fork copies the stack arrays but not the objects in them, so `rest_items.shift()` in one environment is visible in others holding the same object. The model gives each environment its own immutable copy.
- **Stale head after an end-of-input backtrack.** When the loop condition backtracks at the end of input, the source runs the loop body once more with the old head, and so with an undefined token, in the restored environment. What that does depends on `is_sign`, `get_sign`, `is_number` and `get_number`, which `parser.ts` imports from the tokenizer. They are not part of the repository's `tokenizer.ts` and are not part of this model. The model instead re-examines the restored environment at its own head.
- **Token classification.** `Classify` stands in for those four functions and reads the `*` and `#` prefixes that `tokenize` writes.
  - Number lexemes are kept as strings, not converted to numbers.
  - A token with neither prefix is skipped in state 0, as the source's fall-through does.
- **Bounded loop.** `Run` runs the loop for a bounded number of turns (`fuel`) and returns an out-of-fuel error beyond it. Termination of the source loop is not modelled.
- **Model-only errors.** The broken-state and empty-result internal errors stand for places where the source would crash or return `undefined`:
  - an empty candidate list;
  - state 2 without a required sign;
  - a head past the end;
  - draining an empty stack.
  
  `ParseFacts.ParseWF` proves the broken state unreachable on built grammars.
- **Error messages** are replaced by a datatype of error kinds carrying the position. The message text is not modelled.
- **Regular expressions.** `IsMantissaE`, `IsPlusMinus` and `IsIntegerFragment` stand in for the fixup's regular expressions. JavaScript `\s` is the character set of `IsWhitespace`.
- **Examples start from tokens.** The parse examples use token lists rather than source text. The shipped sign list is too large to tokenize literal text with, so `tokenize` on source text is worked out in a proof only for a one-sign list (`Tokenizer.ExponentExample`).
- **Evaluation and the rest of the repository.** The runtime, environment, constants, entry point and the `perser.ts` wrapper are not part of this model. The TypeScript-level argument typing (`ArgTypeOf`) is reflected only as the arity count.
