# Case-clause lowering and bound-function emission, modelled in Dafny

This project models two node rewriters from decaffeinate's main patching
stage, the stage that rewrites CoffeeScript source into JavaScript:

- **`SwitchCasePatcher`** lowers one `when a, b, c then d` arm of a
  CoffeeScript `switch` into `case a: case b: case c: d break`.
- **`ManuallyBoundFunctionPatcher`** handles a fat-arrow function that
  cannot stay an arrow. It runs the base function patcher and brackets its
  output with inserts at the function's inner start and inner end, which
  yields `(function () { ... }.bind(this))` or a variant of it.

Neither rewriter edits text directly. Each appends position-anchored edits
to an editor shared by the compilation unit, and asks child patchers to
patch themselves. The model follows that structure:

- **The editor** (`Editing.Editor`) is a class whose one field, `log`, is
  the append-only sequence of edits. Each `insert`, `remove` and
  `appendLineAfter` call appends one `Edit`.
- **Child patchers** (`Editing.NodePatcher`) are objects with fixed
  offsets (`start`, `before`, `after`) and two mutable flags, `negated`
  and `implicitlyReturns`.
- **Opaque calls.** Patching a child appends one opaque `PatchChild(id,
  options)` event. The base function patcher's `patchAsExpression`
  appends one `BaseExpression(options)` event.
- **Token queries** (`getWhenToken`, `getCommaTokens`, `getBreakToken`,
  `getThenToken`) are pure finds and filters over the arm's token
  sequence (module `Tokens`, used by module `SwitchCase`).

Each log-writing method is proved against a specification function. Its
`ensures` says that the new log is the old log followed by that function's
value. For example, `SwitchCasePatcher.PatchAsStatement` appends
`ArmEdits(tokens, conditions, consequent, implicitlyReturns)`. What the
source promises is then proved about these functions as lemmas:
- `SwitchCaseProperties` holds the lemmas for one case arm;
- `ManuallyBoundFunction` holds those for bound functions.

Files:
- `editing.dfy`: module `Editing`, with the options record, the edit log,
  the editor, the child-patcher interface and event counting.
- `tokens.dfy`: module `Tokens`, with tokens and the find and filter
  queries.
- `switch_case.dfy`: module `SwitchCase`, with the arm's token queries,
  the specification of its edits and the `SwitchCasePatcher` class.
- `switch_case_properties.dfy`: module `SwitchCaseProperties`, with what
  one arm's log promises.
- `bound_function.dfy`: module `ManuallyBoundFunction`, with the
  specification of both entry points, the patcher class and their
  properties.

The break goes inline exactly when a `then` token was found
(`src/stages/main/patchers/SwitchCasePatcher.js:42-50`), not by line
layout; `SwitchCaseProperties.BreakPolicy` states this rule.

## Model

| member | source | states |
|---|---|---|
| SwitchCase.WhenToken | src/stages/main/patchers/SwitchCasePatcher.js:69-71 | no token is returned exactly when no token of the arm has type `LEADING_WHEN`; a returned token is the first token of the arm with that type |
| SwitchCase.CommaTokens | src/stages/main/patchers/SwitchCasePatcher.js:76-78 | every token kept has type `,`, and each `,` token is kept exactly as many times as the arm holds it |
| Tokens.FilterOrdered | src/stages/main/patchers/SwitchCasePatcher.js:76-78 | filtering tokens that are in ascending, non-overlapping source order keeps them in that order |
| SwitchCase.BreakToken | src/stages/main/patchers/SwitchCasePatcher.js:83-85 | no token is returned exactly when no token is a `STATEMENT` token with data `break`; a returned token is the first such token of the arm |
| SwitchCase.ThenToken | src/stages/main/patchers/SwitchCasePatcher.js:92-94 | no token is returned exactly when no `THEN` token lies between the first condition's `after` offset and the consequent's `before` offset; a returned token is the first such token of the arm |
| SwitchCase.CommaRemovals | src/stages/main/patchers/SwitchCasePatcher.js:20-22 | one removal per comma, and the k-th removal removes exactly the k-th comma's range |
| SwitchCase.CaseLabelsAt | src/stages/main/patchers/SwitchCasePatcher.js:24-30 | the labels of the i-th condition sit at positions 3i to 3i+2: `case ` before the condition, the condition patched without braces, `:` after it |
| SwitchCase.SwitchCasePatcher.constructor | src/stages/main/patchers/SwitchCasePatcher.js:6-10 | the arm keeps its tokens, conditions, consequent and editor, and starts not implicitly returning |
| SwitchCase.SwitchCasePatcher.PatchAsStatement | src/stages/main/patchers/SwitchCasePatcher.js:12-51 | the log grows by exactly the arm's edits, in order: the `when` removal, the comma removals, the labels, the `then` removal, the consequent patch and the break |
| SwitchCase.SwitchCasePatcher.Lower | src/stages/main/patchers/SwitchCasePatcher.js:15-50 | given the results of the token queries, the log grows by the `when` removal, the comma removals, the labels, the `then` removal, the consequent patch and the break, in that order |
| SwitchCase.SwitchCasePatcher.RemoveCommas | src/stages/main/patchers/SwitchCasePatcher.js:20-22 | the loop appends one removal per comma token, in token order, and nothing else |
| SwitchCase.SwitchCasePatcher.LabelConditions | src/stages/main/patchers/SwitchCasePatcher.js:24-30 | the loop labels every condition, left to right, and appends nothing else |
| SwitchCase.SwitchCasePatcher.RemoveThen | src/stages/main/patchers/SwitchCasePatcher.js:35-38 | one removal from the `then` token's start to the consequent's start if there is a `then` token, no edit otherwise |
| SwitchCase.SwitchCasePatcher.AddBreak | src/stages/main/patchers/SwitchCasePatcher.js:42-50 | no edit when no break is needed; otherwise ` break` inserted after the consequent if there is a `then`, or a `break` line appended at indent 1 if there is not |
| SwitchCase.SwitchCasePatcher.SetImplicitlyReturns | src/stages/main/patchers/SwitchCasePatcher.js:53-56 | the arm and its consequent are both marked implicitly returning; the consequent's negation, the conditions and the log are unchanged |
| SwitchCase.SwitchCasePatcher.PatchAsExpression | src/stages/main/patchers/SwitchCasePatcher.js:58-60 | appends exactly the same edits as statement position |
| SwitchCase.SwitchCasePatcher.Negate | src/stages/main/patchers/SwitchCasePatcher.js:62-64 | each condition's negation flips once and its implicit-return flag stays; the arm, the consequent and the log are unchanged, so no edit is made |
| SwitchCaseProperties.WhenRemovedFirst | src/stages/main/patchers/SwitchCasePatcher.js:15-16 | the first edit removes from the `when` token's start to the first condition's start |
| SwitchCaseProperties.CommasRemovedInOrder | src/stages/main/patchers/SwitchCasePatcher.js:20-22 | right after the `when` removal, the k-th edit removes the k-th comma token's range, for every comma; ordered tokens give ordered commas |
| SwitchCaseProperties.CaseLabelsInOrder | src/stages/main/patchers/SwitchCasePatcher.js:24-30 | after the comma removals the i-th condition is labelled at positions 1 + commas + 3i to 1 + commas + 3i + 2: `case ` before it, its patch without braces, `:` after it |
| SwitchCaseProperties.OneCasePerCondition | src/stages/main/patchers/SwitchCasePatcher.js:24-30 | for N conditions the arm's log holds exactly N `case ` inserts and N `:` inserts |
| SwitchCaseProperties.ThenRemovedIffPresent | src/stages/main/patchers/SwitchCasePatcher.js:35-38 | the arm removes exactly 1 + commas + (1 if a `then` token exists, else 0) ranges; when there is a `then`, the removal right after the labels runs from its start to the consequent's start |
| SwitchCaseProperties.ConsequentPatchedOnceLast | src/stages/main/patchers/SwitchCasePatcher.js:40 | the consequent is patched exactly once, without braces, right after the labels and the `then` removal, and only break edits follow it; each condition is patched exactly once |
| SwitchCaseProperties.BreakPolicy | src/stages/main/patchers/SwitchCasePatcher.js:42-50 | exactly one break edit if no token is a `break` statement and the arm is not implicitly returning, none otherwise; when present it is the last edit, ` break` after the consequent with a `then` and a new `break` line without |
| ManuallyBoundFunction.ManuallyBoundFunctionPatcher.constructor | src/stages/main/patchers/ManuallyBoundFunctionPatcher.js:7 | the patcher keeps its inner offsets, its parent kind and its editor |
| ManuallyBoundFunction.ManuallyBoundFunctionPatcher.BasePatchAsExpression | src/stages/main/patchers/ManuallyBoundFunctionPatcher.js:10 | the base function patcher's emission is one event carrying the caller's options |
| ManuallyBoundFunction.ManuallyBoundFunctionPatcher.PatchAsStatement | src/stages/main/patchers/ManuallyBoundFunctionPatcher.js:8-12 | the log grows by exactly `(` at the inner start, the base emission with the same options, and `.bind(this))` at the inner end |
| ManuallyBoundFunction.StatementBracketsBase | src/stages/main/patchers/ManuallyBoundFunctionPatcher.js:8-12 | in statement position the base emission runs exactly once, after the `(` at the inner start and before `.bind(this))` at the inner end |
| ManuallyBoundFunction.StatementTextCounts | src/stages/main/patchers/ManuallyBoundFunctionPatcher.js:9-11 | statement position inserts two `(` and two `)` in all, so its parentheses balance, and one `.bind(this)` |
| ManuallyBoundFunction.ManuallyBoundFunctionPatcher.PatchAsExpression | src/stages/main/patchers/ManuallyBoundFunctionPatcher.js:14-33 | the log grows by: `(` if the parent is a `new` operator, the base emission, `.bind(this)` unless patching as a method, and `)` if the parent is a `new` operator |
| ManuallyBoundFunction.ExpressionParens | src/stages/main/patchers/ManuallyBoundFunctionPatcher.js:15-32 | in expression position one `(` insert and one `)` insert are made if the parent is a `new` operator, and none otherwise |
| ManuallyBoundFunction.ExpressionBind | src/stages/main/patchers/ManuallyBoundFunctionPatcher.js:26-31 | in expression position one `.bind(this)` insert is made unless patching as a method, none otherwise, and it comes before any closing parenthesis |
| ManuallyBoundFunction.ExpressionBracketsBase | src/stages/main/patchers/ManuallyBoundFunctionPatcher.js:17-32 | in expression position the base emission runs exactly once; before it come only `(` inserts at the inner start, and after it only inserts at the inner end |
| ManuallyBoundFunction.ExpressionParensBalance | src/stages/main/patchers/ManuallyBoundFunctionPatcher.js:17-32 | the text inserted in expression position holds as many `(` as `)`: one pair from `.bind(this)` unless patching as a method, plus one pair under a `new` operator |
| ManuallyBoundFunction.ExpressionBindText | src/stages/main/patchers/ManuallyBoundFunctionPatcher.js:26-28 | `.bind(this)` occurs once in the inserted texts unless patching as a method, and not at all with the method option |
| ManuallyBoundFunction.NewParentMatchesStatement | src/stages/main/patchers/ManuallyBoundFunctionPatcher.js:8-33 | under a `new` operator without the method option, expression position makes statement position's edits, except that the text inserted at the inner end is split into `.bind(this)` and `)` |
| ManuallyBoundFunction.ManuallyBoundFunctionPatcher.ExpectedArrowType | src/stages/main/patchers/ManuallyBoundFunctionPatcher.js:35-37 | the expected arrow type is always `=>` |

## Left out

- **Parent patchers.** `NodePatcher`, `FunctionPatcher` and `NewOpPatcher`
  are not part of this model. Only the interface the two rewriters use is
  modelled: offsets, `insert`, `remove`, `appendLineAfter`, the token list,
  and a child's `patch`. Patching a child and the base function emission
  are each one opaque event; what they write is not modelled.
- **Parent test.** `this.parent instanceof NewOpPatcher` becomes the tag
  `ParentKind`.
- **`then` query.** `tokenBetweenPatchersMatching` is not part of this
  model. `SwitchCase.ThenToken` takes it to return the first `THEN` token
  lying between the first condition's `after` offset and the consequent's
  `before` offset.
- **Flag methods.** The base `negate` and `setImplicitlyReturns` of
  `NodePatcher` are not part of this model. They are taken to flip the
  `negated` flag and to set the `implicitlyReturns` flag.
- **Editor rendering.** The editor's rendering into text and the
  indentation behind `appendLineAfter` belong to a foreign string-editing
  library. Edits stay log entries, and `AppendLine` only records its text
  and indent.
- SwitchCase.SwitchCasePatcher.PatchAsStatement: requires at least one
  condition and a `LEADING_WHEN` token. The source dereferences both
  without a check, so without them it throws rather than producing an arm.
- SwitchCase.SwitchCasePatcher.PatchAsStatement: requires the children to
  be distinct objects with distinct ids that share the arm's editor
  (`Valid`), as the parser builds them. The constructor,
  `SwitchCase.SwitchCasePatcher.Lower`,
  `SwitchCase.SwitchCasePatcher.LabelConditions`,
  `SwitchCase.SwitchCasePatcher.SetImplicitlyReturns` and
  `SwitchCase.SwitchCasePatcher.Negate` require the same. `Negate` relies
  on the conditions being distinct: a condition shared by two positions
  would be flipped twice, and the model does not describe that case.
- **Counting `.bind(this)`.** `ManuallyBoundFunction.ExpressionBindText`
  and `ManuallyBoundFunction.StatementTextCounts` count occurrences edit by
  edit. They do not count an occurrence that spans two inserts once
  rendered; none of the texts inserted here can form one.
- **Other rewrites.** The generator (`yield`) lowering, arrow unwrapping
  and the constructor rebinding of class methods
  (`this.x = this.x.bind(this)`) seen in the end-to-end tests are done by
  other patchers and are not modelled.
