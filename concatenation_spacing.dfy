/** The `I2ct.Strings.ConcatenationSpacing` rule, run at every string
    concatenation operator `.`:
    - PaddingFound: on one line the operator has exactly one space on each side;
    - NotAligned: an operator that starts a continuation line sits at the
      column its statement's alignment rule gives. */
module ConcatenationSpacing {
  import opened Tokens
  import opened Fixing
  import opened SniffFiles

  /** Spacing on one side of the operator: the operand is on another line,
      or on the same line `n` characters away. */
  datatype Spacing = Newline | Spaces(n: nat)

  /** What the rule decides at one operator. */
  datatype Verdict = Compliant | NotAligned(expected: int, found: int) | PaddingFound

  const BeforeMetric := "Spacing before string concat"
  const AfterMetric := "Spacing after string concat"
  const NotAlignedMessage := "Concat operator not aligned correctly; expected %s space(s) but found %s."
  const PaddingMessage := "Concat operator must be surrounded by a single space"

  /** The metric PHP records: the word 'newline' or the number of spaces. */
  function MetricOf(s: Spacing): MetricValue
  {
    match s
    case Newline => Word("newline")
    case Spaces(n) => Number(n)
  }

  /** The previous operand: the nearest earlier token that is not whitespace,
      or token 0 when there is none (PHP reads `$tokens[false]` as `$tokens[0]`). */
  function PrevOperand(tokens: seq<Token>, sp: nat): (q: nat)
    requires 0 < sp < |tokens|
    ensures q < sp
    ensures tokens[q].code != Whitespace ==> forall j :: q < j < sp ==> tokens[j].code == Whitespace
    ensures tokens[q].code == Whitespace ==> q == 0 && forall j :: 0 <= j < sp ==> tokens[j].code == Whitespace
  {
    KeyOf(FindPrevious(tokens, {Whitespace}, sp - 1, true))
  }

  /** `$before`: 'newline' when the previous operand is on another line,
      else 0 when the operator touches it, else the length of the whitespace
      token right before the operator. */
  function SpacingBefore(tokens: seq<Token>, sp: nat): (r: Spacing)
    requires 0 < sp < |tokens|
    ensures r == Newline <==> tokens[PrevOperand(tokens, sp)].line != tokens[sp].line
    ensures tokens[sp - 1].code != Whitespace ==>
              r == (if tokens[sp - 1].line != tokens[sp].line then Newline else Spaces(0))
    ensures tokens[sp - 1].code == Whitespace && r != Newline ==> r == Spaces(tokens[sp - 1].length)
  {
    if tokens[PrevOperand(tokens, sp)].line != tokens[sp].line then Newline
    else if tokens[sp - 1].code != Whitespace then Spaces(0)
    else Spaces(tokens[sp - 1].length)
  }

  /** `$after`. The source looks the next operand up with a BACKWARD search
      from `sp + 1`: when whitespace follows the operator the search lands on
      the operator itself, so `$after` is that whitespace's length and never
      'newline'. */
  function SpacingAfter(tokens: seq<Token>, sp: nat): (r: Spacing)
    requires sp + 1 < |tokens| && tokens[sp].code == StringConcat
    ensures tokens[sp + 1].code == Whitespace ==> r == Spaces(tokens[sp + 1].length)
    ensures tokens[sp + 1].code != Whitespace ==>
              r == (if tokens[sp + 1].line != tokens[sp].line then Newline else Spaces(0))
  {
    var next := KeyOf(FindPrevious(tokens, {Whitespace}, sp + 1, true));
    if tokens[next].line != tokens[sp].line then Newline
    else if tokens[sp + 1].code != Whitespace then Spaces(0)
    else Spaces(tokens[sp + 1].length)
  }

  /** The indent a statement start gives: its column + 4 after `return`,
      + 3 otherwise. */
  function StatementIndent(tokens: seq<Token>, startOf: nat -> nat, sp: nat): int
    requires sp < |tokens| && startOf(sp) <= sp
  {
    var s := startOf(sp);
    if tokens[s].code == Return then tokens[s].column + 4 else tokens[s].column + 3
  }

  /** A target taken from an `=` or a `.` before `sp`, or from the start of
      a statement at or before `sp`. */
  ghost predicate Anchored(tokens: seq<Token>, startOf: nat -> nat, sp: nat, r: int)
    requires sp < |tokens|
    requires forall p: nat :: startOf(p) <= p
  {
    || (exists q :: 0 <= q < sp && (tokens[q].code == Equal || tokens[q].code == StringConcat)
                                && r == tokens[q].column - 1)
    || (exists p: nat :: p <= sp && r == StatementIndent(tokens, startOf, p))
  }

  /** `q` is the nearest token before `sp` that is neither whitespace nor a
      string literal: where the alignment search stops. */
  ghost predicate NearestOperator(tokens: seq<Token>, sp: nat, q: nat)
    requires sp < |tokens|
  {
    && q < sp
    && tokens[q].code != Whitespace && tokens[q].code != ConstantEncapsedString
    && forall j :: q < j < sp ==> tokens[j].code == Whitespace || tokens[j].code == ConstantEncapsedString
  }

  /** The token the alignment search stops at: the nearest earlier token that
      is neither whitespace nor a string literal (token 0 if there is none). */
  function PrevLineOp(tokens: seq<Token>, sp: nat): (q: nat)
    requires 0 < sp < |tokens|
    ensures q < sp
    ensures tokens[q].code != Whitespace && tokens[q].code != ConstantEncapsedString ==> NearestOperator(tokens, sp, q)
    ensures tokens[q].code == Whitespace || tokens[q].code == ConstantEncapsedString ==>
              q == 0 && forall j :: 0 <= j < sp ==> tokens[j].code == Whitespace || tokens[j].code == ConstantEncapsedString
  {
    KeyOf(FindPrevious(tokens, {Whitespace, ConstantEncapsedString}, sp - 1, true))
  }

  /** `findExpected`: the 0-based column a continuation-line operator at `sp`
      must sit at. Align under an `=`; under a previous `.` that starts its
      line; else follow the chain back through the previous `.`; with no
      operator, indent from the statement start. The recursion is on a
      strictly earlier token. */
  function FindExpected(tokens: seq<Token>, startOf: nat -> nat, sp: nat): (r: int)
    requires 0 < sp < |tokens| && tokens[0].code != StringConcat
    requires forall p: nat :: startOf(p) <= p
    ensures Anchored(tokens, startOf, sp, r)
    decreases sp
  {
    var q := PrevLineOp(tokens, sp);
    if tokens[q].code == Equal then
      tokens[q].column - 1
    else if tokens[q].code == StringConcat then
      if tokens[PrevOperand(tokens, q)].line != tokens[q].line then tokens[q].column - 1
      else FindExpected(tokens, startOf, q)
    else
      StatementIndent(tokens, startOf, sp)
  }

  /** The rule's decision at the operator `sp`. */
  function Check(tokens: seq<Token>, startOf: nat -> nat, sp: nat): (v: Verdict)
    requires 0 < sp && sp + 1 < |tokens| && tokens[sp].code == StringConcat
    requires tokens[0].code != StringConcat
    requires forall p: nat :: startOf(p) <= p
    ensures SpacingBefore(tokens, sp) != Newline ==>
              (v == Compliant <==> SpacingBefore(tokens, sp) == Spaces(1) && SpacingAfter(tokens, sp) == Spaces(1))
    ensures SpacingBefore(tokens, sp) == Newline ==>
              (v == Compliant <==> tokens[sp].column - 1 == FindExpected(tokens, startOf, sp))
    ensures v.PaddingFound? ==> SpacingBefore(tokens, sp) != Newline
    ensures v.NotAligned? ==> && SpacingBefore(tokens, sp) == Newline
                              && v.expected == FindExpected(tokens, startOf, sp)
                              && v.found == tokens[sp].column - 1
                              && v.expected != v.found
  {
    var before := SpacingBefore(tokens, sp);
    var after := SpacingAfter(tokens, sp);
    if before == Spaces(1) && after == Spaces(1) then Compliant
    else if before == Newline then
      var found := tokens[sp].column - 1;
      var expected := FindExpected(tokens, startOf, sp);
      if found != expected then NotAligned(expected, found) else Compliant
    else PaddingFound
  }

  /** The records the rule appends at `sp`: both spacing metrics, then the
      error if any. */
  function Reports(tokens: seq<Token>, startOf: nat -> nat, sp: nat): (r: seq<Report>)
    requires 0 < sp && sp + 1 < |tokens| && tokens[sp].code == StringConcat
    requires tokens[0].code != StringConcat
    requires forall p: nat :: startOf(p) <= p
    ensures |r| == if Check(tokens, startOf, sp) == Compliant then 2 else 3
    ensures r[0].Metric? && r[0].name == BeforeMetric && r[1].Metric? && r[1].name == AfterMetric
    ensures r[0].value == Word("newline") <==> SpacingBefore(tokens, sp) == Newline
    ensures |r| == 3 ==> r[2].Error? && r[2].ptr == sp && r[2].fixable
    ensures Check(tokens, startOf, sp).NotAligned? ==>
              r[2].code == "NotAligned" && r[2].data == [FindExpected(tokens, startOf, sp), tokens[sp].column - 1]
    ensures Check(tokens, startOf, sp).PaddingFound? ==> r[2].code == "PaddingFound" && r[2].data == []
  {
    [ Metric(sp, BeforeMetric, MetricOf(SpacingBefore(tokens, sp))),
      Metric(sp, AfterMetric, MetricOf(SpacingAfter(tokens, sp))) ]
    + match Check(tokens, startOf, sp)
      case Compliant => []
      case NotAligned(e, f) => [Error(sp, "NotAligned", NotAlignedMessage, [e, f], true)]
      case PaddingFound => [Error(sp, "PaddingFound", PaddingMessage, [], true)]
  }

  /** The `NotAligned` fix: prepend the missing spaces to the operator, or,
      when it sits too far right, empty the token before it (the source's
      loop replaces that token with '' once per surplus column). */
  function AlignFix(buf: seq<string>, sp: nat, expected: int, found: int): (r: seq<string>)
    requires 0 < sp < |buf|
    ensures |r| == |buf|
    ensures forall i :: 0 <= i < |buf| && i != sp - 1 && i != sp ==> r[i] == buf[i]
    ensures expected > found ==> r[sp] == Padding(expected - found) + buf[sp] && r[sp - 1] == buf[sp - 1]
    ensures expected < found ==> r[sp - 1] == "" && r[sp] == buf[sp]
    ensures expected == found ==> r == buf
  {
    if expected > found then buf[sp := Padding(expected - found) + buf[sp]]
    else if expected < found then buf[sp - 1 := ""]
    else buf
  }

  /** The `PaddingFound` fix: each side's whitespace token becomes a single
      space; a side without whitespace gets a space appended to the token
      before it (the previous token, or the operator itself). */
  function PaddingFix(tokens: seq<Token>, buf: seq<string>, sp: nat): (r: seq<string>)
    requires 0 < sp && sp + 1 < |tokens| && |buf| == |tokens|
    ensures |r| == |buf|
    ensures forall i :: 0 <= i < |buf| && i != sp - 1 && i != sp && i != sp + 1 ==> r[i] == buf[i]
    ensures r[sp - 1] == if tokens[sp - 1].code == Whitespace then " " else buf[sp - 1] + " "
    ensures r[sp] == if tokens[sp + 1].code == Whitespace then buf[sp] else buf[sp] + " "
    ensures r[sp + 1] == if tokens[sp + 1].code == Whitespace then " " else buf[sp + 1]
  {
    var b := if tokens[sp - 1].code == Whitespace then buf[sp - 1 := " "] else buf[sp - 1 := buf[sp - 1] + " "];
    if tokens[sp + 1].code == Whitespace then b[sp + 1 := " "] else b[sp := b[sp] + " "]
  }

  /** The buffer after the rule's fix at `sp` (when the fixer is running). */
  function Fix(tokens: seq<Token>, startOf: nat -> nat, buf: seq<string>, sp: nat): (r: seq<string>)
    requires 0 < sp && sp + 1 < |tokens| && tokens[sp].code == StringConcat
    requires tokens[0].code != StringConcat && |buf| == |tokens|
    requires forall p: nat :: startOf(p) <= p
    ensures |r| == |buf|
    ensures forall i :: 0 <= i < |buf| && i != sp - 1 && i != sp && i != sp + 1 ==> r[i] == buf[i]
    ensures Check(tokens, startOf, sp) == Compliant ==> r == buf
    ensures Check(tokens, startOf, sp).NotAligned? ==> r[sp + 1] == buf[sp + 1]
  {
    match Check(tokens, startOf, sp)
    case Compliant => buf
    case NotAligned(e, f) => AlignFix(buf, sp, e, f)
    case PaddingFound => PaddingFix(tokens, buf, sp)
  }

  /** The fixing half of the `NotAligned` branch. */
  method FixAlignment(fixer: Fixer, sp: nat, expected: int, found: int)
    requires fixer.Valid() && !fixer.inChangeset && 0 < sp < |fixer.buffer|
    modifies fixer
    ensures fixer.Valid() && !fixer.inChangeset
    ensures fixer.buffer == AlignFix(old(fixer.buffer), sp, expected, found)
  {
    var addBefore := expected - found;
    if addBefore > 0 {
      fixer.AddContentBefore(sp, Padding(addBefore));
    } else {
      ghost var start := fixer.buffer;
      while addBefore < 0
        invariant expected - found <= addBefore <= 0
        invariant fixer.Valid() && !fixer.inChangeset
        invariant fixer.buffer == if addBefore == expected - found then start else start[sp - 1 := ""]
        decreases -addBefore
      {
        fixer.ReplaceToken(sp - 1, "");
        addBefore := addBefore + 1;
      }
    }
  }

  /** The fixing half of the `PaddingFound` branch. */
  method FixPadding(fixer: Fixer, tokens: seq<Token>, sp: nat)
    requires fixer.Valid() && !fixer.inChangeset
    requires 0 < sp && sp + 1 < |tokens| && |fixer.buffer| == |tokens|
    modifies fixer
    ensures fixer.Valid() && !fixer.inChangeset
    ensures fixer.buffer == PaddingFix(tokens, old(fixer.buffer), sp)
  {
    if tokens[sp - 1].code == Whitespace {
      fixer.ReplaceToken(sp - 1, " ");
    } else {
      fixer.AddContent(sp - 1, " ");
    }
    if tokens[sp + 1].code == Whitespace {
      fixer.ReplaceToken(sp + 1, " ");
    } else {
      fixer.AddContent(sp, " ");
    }
  }

  /** `process`: records the two spacing metrics, decides, reports, and
      (when fixing) edits the buffer. No changeset is opened: each edit is
      applied as it is made. */
  method Process(file: SniffFile, sp: nat)
    requires file.Valid() && !file.fixer.inChangeset
    requires 0 < sp && sp + 1 < |file.tokens| && file.tokens[sp].code == StringConcat
    modifies file`log, file.fixer
    ensures file.Valid() && !file.fixer.inChangeset
    ensures file.log == old(file.log) + Reports(file.tokens, file.startOfStatement, sp)
    ensures file.fixer.buffer ==
              if file.fixing then Fix(file.tokens, file.startOfStatement, old(file.fixer.buffer), sp)
              else old(file.fixer.buffer)
  {
    var tokens := file.tokens;
    var before := SpacingBefore(tokens, sp);
    var after := SpacingAfter(tokens, sp);
    file.RecordMetric(sp, BeforeMetric, MetricOf(before));
    file.RecordMetric(sp, AfterMetric, MetricOf(after));

    if before == Spaces(1) && after == Spaces(1) {
      return;
    }

    if before == Newline {
      var found := tokens[sp].column - 1;
      var expected := FindExpected(tokens, file.startOfStatement, sp);
      if found != expected {
        var fix := file.AddFixableError(NotAlignedMessage, sp, "NotAligned", [expected, found]);
        if fix {
          FixAlignment(file.fixer, sp, expected, found);
        }
      }
      return;
    }

    var fix := file.AddFixableError(PaddingMessage, sp, "PaddingFound", []);
    if fix {
      FixPadding(file.fixer, tokens, sp);
    }
  }

  // Properties of the alignment search

  /** What the search makes of the token it stops at: an `=` gives its column
      - 1; a `.` that starts its line gives its column - 1; any other `.`
      hands the search on to that operator; anything else falls back to the
      statement start. */
  lemma FindExpectedAtOperator(tokens: seq<Token>, startOf: nat -> nat, sp: nat, q: nat)
    requires sp < |tokens| && tokens[0].code != StringConcat
    requires forall p: nat :: startOf(p) <= p
    requires NearestOperator(tokens, sp, q)
    ensures tokens[q].code == Equal ==> FindExpected(tokens, startOf, sp) == tokens[q].column - 1
    ensures tokens[q].code == StringConcat ==>
              && 0 < q
              && FindExpected(tokens, startOf, sp) ==
                   if tokens[PrevOperand(tokens, q)].line != tokens[q].line then tokens[q].column - 1
                   else FindExpected(tokens, startOf, q)
    ensures tokens[q].code != Equal && tokens[q].code != StringConcat ==>
              FindExpected(tokens, startOf, sp) == StatementIndent(tokens, startOf, sp)
  {
    FindPreviousFinds(tokens, {Whitespace, ConstantEncapsedString}, sp - 1, true, q);
    assert PrevLineOp(tokens, sp) == q;
  }

  /** With only whitespace and string literals before the operator, the
      target is the statement start's indent. */
  lemma FindExpectedWithoutOperator(tokens: seq<Token>, startOf: nat -> nat, sp: nat)
    requires 0 < sp < |tokens| && tokens[0].code != StringConcat
    requires forall p: nat :: startOf(p) <= p
    requires forall j :: 0 <= j < sp ==> tokens[j].code == Whitespace || tokens[j].code == ConstantEncapsedString
    ensures FindExpected(tokens, startOf, sp) == StatementIndent(tokens, startOf, sp)
  {
  }

  /** The target depends only on the tokens up to the operator and on where
      their statements start: editing anything after the operator leaves
      its alignment target unchanged. */
  lemma {:induction false} FindExpectedLocal(t1: seq<Token>, t2: seq<Token>,
                                             startOf1: nat -> nat, startOf2: nat -> nat, sp: nat)
    requires 0 < sp && sp < |t1| && sp < |t2| && t1[0].code != StringConcat
    requires forall j :: 0 <= j <= sp ==> t1[j] == t2[j]
    requires forall p: nat :: startOf1(p) <= p
    requires forall p: nat :: startOf2(p) <= p
    requires forall p: nat :: p <= sp ==> startOf1(p) == startOf2(p)
    ensures FindExpected(t1, startOf1, sp) == FindExpected(t2, startOf2, sp)
    decreases sp
  {
    assert t2[0] == t1[0];
    FindPreviousLocal(t1, t2, {Whitespace, ConstantEncapsedString}, sp - 1, true);
    var q := PrevLineOp(t1, sp);
    assert q == PrevLineOp(t2, sp) && t1[q] == t2[q];
    if t1[q].code == StringConcat {
      assert q < sp;
      FindPreviousLocal(t1, t2, {Whitespace}, q - 1, true);
      var prev2 := PrevOperand(t1, q);
      assert prev2 == PrevOperand(t2, q) && t1[prev2] == t2[prev2];
      if t1[prev2].line == t1[q].line {
        FindExpectedLocal(t1, t2, startOf1, startOf2, q);
      }
    } else if t1[q].code != Equal {
      assert startOf1(sp) == startOf2(sp);
      assert StatementIndent(t1, startOf1, sp) == StatementIndent(t2, startOf2, sp);
    }
  }

  // Worked examples

  /** Every token starts its own statement (enough where no statement start is consulted). */
  function SelfStart(p: nat): nat
  {
    p
  }

  /** `$x = 'a'    .    'b';` on line 2. */
  function PaddedLine(): seq<Token>
  {
    [ Tok(OpenTag, "<?php\n", 1, 1), Tok(Variable, "$x", 2, 1), Tok(Whitespace, " ", 2, 3),
      Tok(Equal, "=", 2, 4), Tok(Whitespace, " ", 2, 5), Tok(ConstantEncapsedString, "'a'", 2, 6),
      Tok(Whitespace, "    ", 2, 9), Tok(StringConcat, ".", 2, 13), Tok(Whitespace, "    ", 2, 14),
      Tok(ConstantEncapsedString, "'b'", 2, 18), Tok(Semicolon, ";", 2, 21) ]
  }

  /** Four spaces on each side: `PaddingFound`, and the fix leaves exactly
      one, giving `$x = 'a' . 'b';`. */
  lemma PaddedLineIsFixed()
    ensures Check(PaddedLine(), SelfStart, 7) == PaddingFound
    ensures Fix(PaddedLine(), SelfStart, Contents(PaddedLine()), 7)[1..] ==
              ["$x", " ", "=", " ", "'a'", " ", ".", " ", "'b'", ";"]
  {
    var t := PaddedLine();
    FindPreviousFinds(t, {Whitespace}, 6, true, 5);
    assert SpacingBefore(t, 7) == Spaces(4);
    assert SpacingAfter(t, 7) == Spaces(4);
  }

  /** `$x = 'a'` on line 2 and, on line 3, `n` spaces then `. 'b';`. */
  function ContinuedLine(n: nat): (t: seq<Token>)
    ensures |t| == 12 && t[0].code == OpenTag && t[8].code == StringConcat
  {
    [ Tok(OpenTag, "<?php\n", 1, 1), Tok(Variable, "$x", 2, 1), Tok(Whitespace, " ", 2, 3),
      Tok(Equal, "=", 2, 4), Tok(Whitespace, " ", 2, 5), Tok(ConstantEncapsedString, "'a'", 2, 6),
      Tok(Whitespace, "\n", 2, 9), Tok(Whitespace, Padding(n), 3, 1), Tok(StringConcat, ".", 3, n + 1),
      Tok(Whitespace, " ", 3, n + 2), Tok(ConstantEncapsedString, "'b'", 3, n + 3),
      Tok(Semicolon, ";", 3, n + 6) ]
  }

  /** The continuation operator must sit directly under the `=` (3 spaces
      in); any other indent is `NotAligned`. Too little indent is padded;
      too much empties the indent token whole, moving the operator to
      column 1, so a later fixer pass pads it again. */
  lemma ContinuedLineAlignsUnderAssignment(n: nat)
    requires n > 0
    ensures Check(ContinuedLine(n), SelfStart, 8) == if n == 3 then Compliant else NotAligned(3, n)
    ensures n < 3 ==> Fix(ContinuedLine(n), SelfStart, Contents(ContinuedLine(n)), 8)[8] == Padding(3 - n) + "."
    ensures n > 3 ==> Fix(ContinuedLine(n), SelfStart, Contents(ContinuedLine(n)), 8)[7] == ""
  {
    ContinuedLineIsContinuation(n);
    ContinuedLineTarget(n);
  }

  /** The operand before the operator is `'a'` on line 2: a continuation line. */
  lemma ContinuedLineIsContinuation(n: nat)
    requires n > 0
    ensures SpacingBefore(ContinuedLine(n), 8) == Newline
  {
    FindPreviousFinds(ContinuedLine(n), {Whitespace}, 7, true, 5);
  }

  /** The alignment search stops at the `=`, whose column - 1 is 3. */
  lemma ContinuedLineTarget(n: nat)
    requires n > 0
    ensures FindExpected(ContinuedLine(n), SelfStart, 8) == 3
  {
    var t := ContinuedLine(n);
    assert NearestOperator(t, 8, 3) by {
      forall j | 3 < j < 8 ensures t[j].code == Whitespace || t[j].code == ConstantEncapsedString {
        assert j == 4 || j == 5 || j == 6 || j == 7;
      }
    }
    FindExpectedAtOperator(t, SelfStart, 8, 3);
  }
}
