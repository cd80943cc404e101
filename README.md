# I2ct coding-standard rules, modelled in Dafny

This project models three pieces of the I2ct PHP_CodeSniffer standard and proves
properties about them.

- **`I2ct.Strings.ConcatenationSpacing`** (`concatenation_spacing.dfy`) runs at every
  string concatenation operator `.`.
  - On one line, the operator needs exactly one space on each side. Otherwise it
    reports `PaddingFound`.
  - An operator that starts a continuation line must sit in the column that
    `findExpected` computes. Otherwise it reports `NotAligned`.
  - Both errors are fixable, and the rule records the spacing before and after as
    metrics.
- **`I2ct.Formatting.DisallowMultipleStatements`** (`disallow_multiple_statements.dfy`)
  runs at every `;`.
  - A statement must not share its line with the previous one. The clauses of a
    `for (...)` header are exempt. So is a statement when `}` directly follows the
    previous `;` (`;}`); `; }` with a space is reported.
  - The fix breaks the line inside one changeset.
- **`ClassHelper`** (`class_helper.dfy`) is a per-file memo.
  - It resolves the file's class or interface once, by namespace-qualified name,
    and caches a failed resolution as well.
  - It answers "is this a PHPUnit test class" and "is this a test method", memoized
    per stack pointer.

The engine pieces these rules use are modelled as well:

- the token stream and its two searches (`tokens.dfy`);
- the fixer's token buffer with changesets (`fixer.dfy`);
- the file object, which holds the report log and the engine queries (`sniff_file.dfy`).

Tokens are addressed by 0-based stack pointer.

- A search that finds nothing returns `None`.
- When PHP then uses that `false` as an array key, it reads token 0. `KeyOf` models
  this, so the rules have no "a match exists" precondition.
- Three engine queries are fixed function-valued inputs of the file:
  - `findStartOfStatement`, which never lies after its argument;
  - `getDeclarationName`;
  - `getMethodProperties`.
- The class registry behind PHP reflection is a fixed function from a qualified
  name to the merged parents-and-interfaces list, or `None`.

Stateful code is modelled as classes:

- `Fixer` edits `buffer` and queues edits in `changeset`.
- `SniffFile` appends to `log`.
- `ClassHelper` updates its three caches.

Each method is proved against a specification function:

- `Fix`, `SplitFix` and `Reports` for the two rules;
- `LookUp`, `Resolved` and `IsTestHierarchy` for the helper, with `ResolvedMeans`
  relating `Resolved` to the tokens and the registry.

## Model

| member | source | states |
|---|---|---|
| Tokens.FindPrevious | src/I2ct/Sniffs/Formatting/DisallowMultipleStatementsSniff.php:60 | The result is the nearest matching token at or before `start` (none matches in between), or `None` when no token in `[0, start]` matches. With `exclude`, a match is a token whose type is not listed. |
| Tokens.FindNext | src/I2ct/CodeSniffer/Helpers/ClassHelper.php:74 | The result is the first matching token at or after `start` (none matches before it), or `None` when nothing from `start` to the end matches. |
| Tokens.FindPreviousLocal | src/I2ct/Sniffs/Strings/ConcatenationSpacingSniff.php:147-155 | A backward search depends only on the tokens up to its start. Two streams that agree there give the same answer. |
| Tokens.FindPreviousFinds | src/I2ct/Sniffs/Strings/ConcatenationSpacingSniff.php:147-155 | A matching token with no match between it and the start is exactly what the backward search returns. |
| Fixing.Padding | src/I2ct/Sniffs/Strings/ConcatenationSpacingSniff.php:103 | `str_repeat(' ', n)` has length `n` and holds only spaces. |
| Fixing.Fixer.ReplaceToken | src/I2ct/Sniffs/Strings/ConcatenationSpacingSniff.php:107 | The pending buffer has token `p` set to the new content and nothing else changed. Inside a changeset the committed buffer is untouched. |
| Fixing.Fixer.AddContent | src/I2ct/Sniffs/Strings/ConcatenationSpacingSniff.php:124 | The pending text of token `p` gets the content appended. Every other token is unchanged. |
| Fixing.Fixer.AddContentBefore | src/I2ct/Sniffs/Strings/ConcatenationSpacingSniff.php:104 | The pending text of token `p` gets the content prepended. Every other token is unchanged. |
| Fixing.Fixer.AddNewline | src/I2ct/Sniffs/Formatting/DisallowMultipleStatementsSniff.php:95 | The pending text of token `p` gets `"\n"` appended. |
| Fixing.Fixer.BeginChangeset | src/I2ct/Sniffs/Formatting/DisallowMultipleStatementsSniff.php:94 | Opens an empty changeset and leaves the buffer as it was. |
| Fixing.Fixer.EndChangeset | src/I2ct/Sniffs/Formatting/DisallowMultipleStatementsSniff.php:100 | The buffer becomes what was pending, with all queued edits applied at once, and the changeset is closed. |
| SniffFiles.SniffFile.AddFixableError | src/I2ct/Sniffs/Strings/ConcatenationSpacingSniff.php:99 | Appends one fixable error to the log and answers whether the fixer is running. |
| SniffFiles.SniffFile.AddWarning | src/I2ct/CodeSniffer/Helpers/ClassHelper.php:99 | Appends exactly one warning to the log. |
| SniffFiles.SniffFile.RecordMetric | src/I2ct/Sniffs/Strings/ConcatenationSpacingSniff.php:83-84 | Appends exactly one metric to the log. |
| ConcatenationSpacing.PrevOperand | src/I2ct/Sniffs/Strings/ConcatenationSpacingSniff.php:63 | The previous operand lies before the operator and only whitespace separates them. When there is none, the result is token 0 and everything before the operator is whitespace. |
| ConcatenationSpacing.PrevLineOp | src/I2ct/Sniffs/Strings/ConcatenationSpacingSniff.php:147-157 | Where the alignment search stops: a token before the operator with only whitespace and string literals between them. When every earlier token is whitespace or a string literal, the result is token 0, since PHP reads `$tokens[false]` as `$tokens[0]`. |
| ConcatenationSpacing.SpacingBefore | src/I2ct/Sniffs/Strings/ConcatenationSpacingSniff.php:63-70 | `before` is 'newline' exactly when the previous operand is on another line. Otherwise it is 0 when the operator touches the operand, else the length of the whitespace token right before it. |
| ConcatenationSpacing.SpacingAfter | src/I2ct/Sniffs/Strings/ConcatenationSpacingSniff.php:73-80 | Whitespace after the operator gives its length, never 'newline', because the source's backward search from `sp + 1` lands on the operator. Without whitespace the result is 'newline' or 0 by the next token's line. |
| ConcatenationSpacing.FindExpected | src/I2ct/Sniffs/Strings/ConcatenationSpacingSniff.php:143-178 | The alignment target is always anchored in one of two ways. Either it is `column - 1` of an `=` or `.` before the operator (never the operator itself), or it is the indent of a statement start at or before it. The recursion is on a strictly earlier operator. |
| ConcatenationSpacing.FindExpectedAtOperator | src/I2ct/Sniffs/Strings/ConcatenationSpacingSniff.php:157-177 | At the nearest token that is neither whitespace nor a string: an `=` gives its `column - 1`. A `.` whose previous operand is on another line gives its `column - 1`; any other `.` hands on to that operator's target. Anything else gives the statement start's column + 4 after `return`, + 3 otherwise. |
| ConcatenationSpacing.FindExpectedWithoutOperator | src/I2ct/Sniffs/Strings/ConcatenationSpacingSniff.php:170-177 | With only whitespace and strings before the operator, the target is the statement start's indent. |
| ConcatenationSpacing.FindExpectedLocal | src/I2ct/Sniffs/Strings/ConcatenationSpacingSniff.php:143-178 | The target depends only on the tokens up to the operator and on their statement starts. Edits after the operator leave it unchanged. |
| ConcatenationSpacing.Check | src/I2ct/Sniffs/Strings/ConcatenationSpacingSniff.php:86-119 | On one line the operator is compliant iff `before` and `after` are both 1. On a continuation line it is compliant iff `column - 1` equals `findExpected`. `PaddingFound` never arises on a continuation line. `NotAligned` carries the expected and found columns, which differ. |
| ConcatenationSpacing.StatementIndent | src/I2ct/Sniffs/Strings/ConcatenationSpacingSniff.php:170-177 | Definition: the fallback target is the statement start's column + 4 when the statement starts with `return`, + 3 otherwise. |
| ConcatenationSpacing.Reports | src/I2ct/Sniffs/Strings/ConcatenationSpacingSniff.php:83-119 | The rule always logs the before and after metrics, in that order. The before metric is 'newline' exactly for a continuation line. One fixable error at the operator follows exactly when the verdict is not compliant. `NotAligned` carries `[expected, found]` and `PaddingFound` carries no data. |
| ConcatenationSpacing.Fix | src/I2ct/Sniffs/Strings/ConcatenationSpacingSniff.php:100-132 | The fix touches at most the operator and its two neighbours. A compliant operator leaves the buffer unchanged. An alignment fix never touches the token after the operator. |
| ConcatenationSpacing.AlignFix | src/I2ct/Sniffs/Strings/ConcatenationSpacingSniff.php:100-110 | Too far left: exactly `expected - found` spaces are prepended to the operator. Too far right: the token before it becomes ''. Equal: nothing changes. No other token changes. |
| ConcatenationSpacing.PaddingFix | src/I2ct/Sniffs/Strings/ConcatenationSpacingSniff.php:120-132 | Each side's whitespace token becomes exactly ' '. A side without whitespace gets ' ' appended to the previous token or to the operator. No other token changes. |
| ConcatenationSpacing.FixAlignment | src/I2ct/Sniffs/Strings/ConcatenationSpacingSniff.php:101-110 | The `addBefore` loop leaves the buffer equal to `AlignFix` of the old buffer. Repeating `replaceToken(sp - 1, '')` has the effect of doing it once. |
| ConcatenationSpacing.FixPadding | src/I2ct/Sniffs/Strings/ConcatenationSpacingSniff.php:120-132 | The four immediate edits leave the buffer equal to `PaddingFix` of the old buffer. |
| ConcatenationSpacing.Process | src/I2ct/Sniffs/Strings/ConcatenationSpacingSniff.php:58-133 | The log gains both spacing metrics and then the error `Check` decides, if any. The buffer becomes `Fix` of the old buffer when fixing and is unchanged otherwise. No changeset is left open. |
| ConcatenationSpacing.PaddedLineIsFixed | src/I2ct/Sniffs/Strings/ConcatenationSpacingSniff.php:117-132 | `'a'    .    'b'` is `PaddingFound` and is fixed to `'a' . 'b'`. |
| ConcatenationSpacing.ContinuedLineAlignsUnderAssignment | src/I2ct/Sniffs/Strings/ConcatenationSpacingSniff.php:92-115 | A continuation `.` after `$x = 'a'` must sit under the `=`. Too little indent is padded; too much empties the indent token. |
| DisallowMultipleStatements.AnyForOwner | src/I2ct/Sniffs/Formatting/DisallowMultipleStatementsSniff.php:68-80 | True iff some enclosing parenthesis has a `for` keyword as owner. Parentheses without an owner never count. |
| DisallowMultipleStatements.Classify | src/I2ct/Sniffs/Formatting/DisallowMultipleStatementsSniff.php:60-104 | It is the first statement iff no `;` or open tag precedes, or the nearest one is the open tag. It is a `for` clause iff, past that, an enclosing parenthesis is owned by `for`. Otherwise it is `SameLine` iff the previous `;` is on the same line and is not followed directly by `}`. |
| DisallowMultipleStatements.Reports | src/I2ct/Sniffs/Formatting/DisallowMultipleStatementsSniff.php:61-103 | Definition: metric 'no' for a first statement or a statement on its own line; nothing in a `for` header; metric 'yes' then the fixable `SameLine` error otherwise. `OneMetricPerStatement` states its properties. |
| DisallowMultipleStatements.OneMetricPerStatement | src/I2ct/Sniffs/Formatting/DisallowMultipleStatementsSniff.php:61-103 | Outside a `for` header exactly one metric is logged, 'yes' exactly when the error is reported. Inside one nothing is logged. |
| DisallowMultipleStatements.SplitFix | src/I2ct/Sniffs/Formatting/DisallowMultipleStatementsSniff.php:93-101 | The previous `;` gets `"\n"` appended. The next token becomes '' iff it is whitespace. No other token changes. |
| DisallowMultipleStatements.FixSameLine | src/I2ct/Sniffs/Formatting/DisallowMultipleStatementsSniff.php:94-100 | One changeset is opened and closed, and the buffer becomes `SplitFix` of the old buffer. |
| DisallowMultipleStatements.Process | src/I2ct/Sniffs/Formatting/DisallowMultipleStatementsSniff.php:56-105 | The log gains exactly the records `Classify` calls for. The buffer changes only for `SameLine` while fixing, and then to `SplitFix`. The changeset is closed before and after. |
| DisallowMultipleStatements.TwoStatementsOnOneLine | src/I2ct/Sniffs/Formatting/DisallowMultipleStatementsSniff.php:86-88 | `$a = 1; $b = 2;` is a stream the tokenizer could produce, and in it the second `;` is `SameLine` with the first. |
| DisallowMultipleStatements.TwoStatementsAreSplit | src/I2ct/Sniffs/Formatting/DisallowMultipleStatementsSniff.php:93-101 | The fix turns `$a = 1; $b = 2;` into `$a = 1;` and `$b = 2;` on two lines, with no stray blank. |
| DisallowMultipleStatements.ForInitIsFirstStatement | src/I2ct/Sniffs/Formatting/DisallowMultipleStatementsSniff.php:60-65 | In a well-formed stream, the first `;` of a `for` header right after the open tag is the first statement. |
| DisallowMultipleStatements.ForConditionIsExempt | src/I2ct/Sniffs/Formatting/DisallowMultipleStatementsSniff.php:67-80 | In a well-formed stream, the second `;` of a `for` header is exempt although it shares its line. |
| ClassHelpers.NamespaceStart | src/I2ct/CodeSniffer/Helpers/ClassHelper.php:74 | The first `namespace` keyword of the file: no earlier token is one. The result is `None` iff the file has no `namespace` keyword. |
| ClassHelpers.NamespaceEnd | src/I2ct/CodeSniffer/Helpers/ClassHelper.php:81-89 | The declaration search starts at the first `;` from two tokens past `namespace`, or at token 0 without a namespace. |
| ClassHelpers.NamespacePrefix | src/I2ct/CodeSniffer/Helpers/ClassHelper.php:81-89 | Without a namespace the prefix is empty. With one it ends in `\`. |
| ClassHelpers.LookUp | src/I2ct/CodeSniffer/Helpers/ClassHelper.php:91-101 | No declaration iff no `class` or `interface` follows the namespace end. Otherwise the name is the prefix plus the declaration name of the first such token. The result is unresolved iff the registry does not know that name, and resolved with the registry's list otherwise. |
| ClassHelpers.LookUpNames | src/I2ct/CodeSniffer/Helpers/ClassHelper.php:91-97 | Given the first `class` or `interface` after the namespace end, the lookup finds a declaration, and its name is the prefix plus that token's declaration name. |
| ClassHelpers.ResolvedMeans | src/I2ct/CodeSniffer/Helpers/ClassHelper.php:78-101 | End to end: take the first `class` or `interface` after the namespace end. When the registry knows the prefix plus its declaration name, the cache holds the registry's list for that name; otherwise it holds `false`. With no such declaration it holds `false`. |
| ClassHelpers.IsTestHierarchy | src/I2ct/CodeSniffer/Helpers/ClassHelper.php:120-126 | Definition: a resolution is a test class when it is a list and one of its names is `PHPUnit_Framework_TestCase` or `PHPUnit\Framework\TestCase`. `IsTestClass` is proved to compute it. |
| ClassHelpers.HasTestPrefix | src/I2ct/CodeSniffer/Helpers/ClassHelper.php:149 | Definition: the name has at least four characters and they are `test` in any ASCII case. `TestPrefixIgnoresCase` and `TestPrefixExtends` state its properties. |
| ClassHelpers.IsTestMethod | src/I2ct/CodeSniffer/Helpers/ClassHelper.php:146-149 | Definition: public scope, not abstract, not a closure, and a `test` prefix. `IsTestClassMethod` is proved to combine it with the test-class answer. |
| ClassHelpers.JoinSnoc | src/I2ct/CodeSniffer/Helpers/ClassHelper.php:83-85 | Appending one token's text to the joined run is the join of the run extended by that text. This is the accumulation step of the namespace loop. |
| ClassHelpers.TestPrefixIgnoresCase | src/I2ct/CodeSniffer/Helpers/ClassHelper.php:149 | `stripos(name, 'test') === 0` holds for a name iff it holds for its lower-cased form. |
| ClassHelpers.TestPrefixExtends | src/I2ct/CodeSniffer/Helpers/ClassHelper.php:149 | Only the first four characters decide: a name with the prefix keeps it whatever follows. |
| ClassHelpers.UnresolvedIsNoTestClass | src/I2ct/CodeSniffer/Helpers/ClassHelper.php:119-127 | When resolution gives `false`, the class is not a test class. |
| ClassHelpers.MethodTableExtends | src/I2ct/CodeSniffer/Helpers/ClassHelper.php:142-153 | Memoizing one more method keeps every entry equal to its test-class entry combined with the method's properties. |
| ClassHelpers.BuildNamespace | src/I2ct/CodeSniffer/Helpers/ClassHelper.php:74-89 | The loop that accumulates token contents yields the namespace prefix and where the namespace statement ends. |
| ClassHelpers.ClassHelper.constructor | src/I2ct/CodeSniffer/Helpers/ClassHelper.php:17-58 | Keeps the file, starts with nothing resolved (`null`) and with both memo tables empty. The registry is an extra input of the model, standing in for PHP reflection. |
| ClassHelpers.ClassHelper.GetClassParentsAndInterfaces | src/I2ct/CodeSniffer/Helpers/ClassHelper.php:69-105 | It returns the resolution and caches it. On the first call only, when a declaration is found but not loaded, it adds one warning `Need class loader to <reason>` with code `Internal.I2ct.NeedClassLoader` at `sp`. Later calls change nothing. |
| ClassHelpers.ClassHelper.IsTestClass | src/I2ct/CodeSniffer/Helpers/ClassHelper.php:114-131 | True iff the resolution is a list containing `PHPUnit_Framework_TestCase` or `PHPUnit\Framework\TestCase`. The only change to `testClasses` is key `sp` (the first call also sets `parentsAndInterfaces`), and a repeated call changes neither cache nor log. |
| ClassHelpers.ClassHelper.IsTestClassMethod | src/I2ct/CodeSniffer/Helpers/ClassHelper.php:140-157 | True iff all of these hold: the same pointer is a test class; the method is public, not abstract and not a closure; its name starts with `test` in any case. Both memo tables gain only key `sp`, and a repeated call changes nothing. |
| ClassHelpers.ClassHelper.RecordTestMethod | src/I2ct/CodeSniffer/Helpers/ClassHelper.php:144-153 | The entry for `sp`, `false` beforehand, becomes `true` exactly when the class is a test class and the method is public, not abstract, not a closure, and its name starts with `test` in any case. No other entry changes. |
| ClassHelpers.TestFileQualifiedName | src/I2ct/CodeSniffer/Helpers/ClassHelper.php:81-94 | In `namespace App\Tests;` followed by `class FooTest`, a declaration is found, and it is looked up as `App\Tests\FooTest`. |

## Where the code departs from what the rules set out to do

Each bullet states what a rule evidently means to do, then what its code does. The
model follows the code in each case.

- A fix that edits several tokens is meant to be applied as one changeset, as
  `DisallowMultipleStatements` does. Both `ConcatenationSpacing` fixes instead apply
  each edit as it is made, outside any changeset:
  - `PaddingFound`, through `replaceToken` and `addContent`
    (`src/I2ct/Sniffs/Strings/ConcatenationSpacingSniff.php:120-131`);
  - `NotAligned`, through `addContentBefore` (`:103`) or the `replaceToken` loop
    (`:105-108`).
- The alignment fix is meant to move the operator to its target column. A
  too-far-right continuation operator is instead fixed by emptying the whole token before
  it, whatever the surplus. When that token is the indent, the operator lands in
  column 1, so a second fixer pass pads it. One pass is not a fixed point.
- The test-method question is meant to ask about the method's enclosing class.
  `isTestClassMethod` asks `isTestClass` at the method's own stack pointer, not at
  the enclosing class's. Resolution is per file, so the answer is the same. Two
  things differ:
  - the `testClasses` memo key is the method's pointer;
  - when that call is the first to resolve the class and the class is not loaded,
    the `Internal.I2ct.NeedClassLoader` warning is reported at the method's token.

## Inputs on which the source does not return

The model excludes one input on which the PHP never returns: a braced namespace
whose file has no `;` after the `namespace` keyword, for example
`<?php namespace A { class B {} }`. This was worked out from the source, not
executed.
- The search for the `;` finds nothing, so `$nsEnd` is `false`
  (`src/I2ct/CodeSniffer/Helpers/ClassHelper.php:82`).
- The declaration search then runs `findNext([T_CLASS, T_INTERFACE], false)` (`:92`).
  This assumes the engine's `findNext` counts from `$start` to the token count with
  `$i++`.
- `false` is below the token count, and `$tokens[false]` reads token 0, the open tag.
- `$i++` leaves `false` unchanged, so the search never moves past token 0.

`ClassHelpers.NamespaceTerminated` states the condition that rules this input out.

## Left out

- The tokenizer is not modelled.
  - Token types, lines, columns, lengths and the parenthesis annotations are inputs.
  - A fixed buffer is not re-tokenized, so the fixer's repeat-until-stable loop and
    the fixed point of the rules are not stated.
- Fixing.Fixer.EndChangeset always applies every queued edit. The engine rolls the
  whole changeset back when one of its tokens was already changed in the same pass,
  and it skips a single replacement of such a token. Neither is modelled, so no edit
  here is ever dropped.
- The fixer's limit on passes is not modelled. The end-of-line character is fixed to
  `"\n"`.
- `findStartOfStatement`, `getDeclarationName`, `getMethodProperties` and PHP
  reflection (`class_exists`, `interface_exists`, `class_parents`,
  `class_implements`) are not part of this model.
  - They are fixed function-valued inputs.
  - `getMethodProperties` throwing on a non-method token is not modelled.
- ConcatenationSpacing.Process requires a token after the operator. A file ending in
  `.` would read past the token array.
- ClassHelpers.ClassHelper.Valid requires the file's first `namespace` keyword, if
  any, to have a `;` two or more tokens after it. On a file without one, the PHP
  does not return; see "Inputs on which
  the source does not return".
- ClassHelpers.IsTestHierarchy compares names exactly. PHP's loose `in_array` cannot
  differ here, because class names are never numeric strings.
- ClassHelpers.HasTestPrefix folds ASCII letters only. Locale-dependent case folding
  of older PHP versions is not modelled.
- The engine's dispatch is not modelled: registering a rule for a token type, calling
  `process` on each token, and the return value that skips tokens.
- Report formatting and the substitution of `%s` in messages are not modelled. The
  log keeps the message template and its data.
