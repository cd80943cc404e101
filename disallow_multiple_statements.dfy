/** The `I2ct.Formatting.DisallowMultipleStatements` rule, run at every `;`:
    a statement must not share its line with the statement before it. The
    terminators inside a `for (...)` header are exempt, and so is a
    statement whose previous `;` is followed directly by `}` (`;}`); with a
    space between them (`; }`) the statement is reported. The fix breaks the line after the previous `;` inside
    one changeset and drops the whitespace that followed it. */
module DisallowMultipleStatements {
  import opened Tokens
  import opened Fixing
  import opened SniffFiles

  /** What the rule decides at one `;`. `prev` is the previous `;`. */
  datatype Verdict = FirstStatement | InForCondition | SameLine(prev: nat) | OwnLine(prev: nat)

  const MetricName := "Multiple statements on same line"
  const SameLineMessage := "Each PHP statement must be on a line by itself"

  /** `q` is the nearest `;` or open tag before `sp`. */
  ghost predicate NearestTerminator(tokens: seq<Token>, sp: nat, q: nat)
    requires sp < |tokens|
  {
    && q < sp
    && (tokens[q].code == Semicolon || tokens[q].code == OpenTag)
    && forall j :: q < j < sp ==> tokens[j].code != Semicolon && tokens[j].code != OpenTag
  }

  /** A parenthesis whose owner is a `for` keyword. Parentheses without an
      owner (a closure's inside a call, say) never are. */
  predicate OwnedByFor(tokens: seq<Token>, bracket: nat)
    requires WellFormed(tokens) && bracket < |tokens|
  {
    tokens[bracket].parenOwner.Some? && tokens[tokens[bracket].parenOwner.value].code == For
  }

  /** Whether any of the enclosing parentheses is a `for` header. */
  function AnyForOwner(tokens: seq<Token>, brackets: seq<nat>): (r: bool)
    requires WellFormed(tokens)
    requires forall k :: 0 <= k < |brackets| ==> brackets[k] < |tokens|
    ensures r <==> exists k :: 0 <= k < |brackets| && OwnedByFor(tokens, brackets[k])
  {
    if brackets == [] then false
    else OwnedByFor(tokens, brackets[0]) || AnyForOwner(tokens, brackets[1..])
  }

  /** The rule's decision at the `;` at `sp`. */
  function Classify(tokens: seq<Token>, sp: nat): (v: Verdict)
    requires WellFormed(tokens) && sp < |tokens|
    ensures v.FirstStatement? <==>
              || (forall j :: 0 <= j < sp ==> tokens[j].code != Semicolon && tokens[j].code != OpenTag)
              || (exists q: nat :: NearestTerminator(tokens, sp, q) && tokens[q].code == OpenTag)
    ensures v.InForCondition? <==>
              !v.FirstStatement? &&
              exists k :: 0 <= k < |tokens[sp].nestedParens| && OwnedByFor(tokens, tokens[sp].nestedParens[k])
    ensures (v.SameLine? || v.OwnLine?) ==>
              && NearestTerminator(tokens, sp, v.prev) && tokens[v.prev].code == Semicolon
              && (v.SameLine? <==> tokens[v.prev].line == tokens[sp].line
                                   && tokens[v.prev + 1].code != CloseCurlyBracket)
  {
    var prev := FindPrevious(tokens, {Semicolon, OpenTag}, sp - 1, false);
    if prev.None? || tokens[prev.value].code == OpenTag then
      FirstStatement
    else if AnyForOwner(tokens, tokens[sp].nestedParens) then
      InForCondition
    else if tokens[prev.value].line == tokens[sp].line && tokens[prev.value + 1].code != CloseCurlyBracket then
      SameLine(prev.value)
    else
      OwnLine(prev.value)
  }

  /** The records the rule appends at `sp`. */
  function Reports(v: Verdict, sp: nat): seq<Report>
  {
    match v
    case FirstStatement => [Metric(sp, MetricName, Word("no"))]
    case InForCondition => []
    case SameLine(_) => [Metric(sp, MetricName, Word("yes")), Error(sp, "SameLine", SameLineMessage, [], true)]
    case OwnLine(_) => [Metric(sp, MetricName, Word("no"))]
  }

  /** The number of metric records in a log. */
  function MetricCount(log: seq<Report>): nat
  {
    if log == [] then 0 else (if log[0].Metric? then 1 else 0) + MetricCount(log[1..])
  }

  /** Outside a `for` header the rule records exactly one metric, 'yes'
      exactly when it reports the error; in a `for` header it records
      nothing. */
  lemma OneMetricPerStatement(v: Verdict, sp: nat)
    ensures MetricCount(Reports(v, sp)) == if v.InForCondition? then 0 else 1
    ensures !v.InForCondition? ==> Reports(v, sp)[0].value == Word(if v.SameLine? then "yes" else "no")
    ensures (exists i :: 0 <= i < |Reports(v, sp)| && Reports(v, sp)[i].Error?) <==> v.SameLine?
  {
    var r := Reports(v, sp);
    if v.InForCondition? {
      assert MetricCount(r) == 0;
    } else if v.SameLine? {
      assert r[1].Error? && r[1..][1..] == [];
      assert MetricCount(r[1..]) == 0;
    } else {
      assert r[1..] == [];
    }
  }

  /** The `SameLine` fix: a newline after the previous `;`, and the
      whitespace token after it (if any) emptied so no blank line appears. */
  function SplitFix(tokens: seq<Token>, buf: seq<string>, prev: nat): (r: seq<string>)
    requires |buf| == |tokens| && prev + 1 < |tokens|
    ensures |r| == |buf|
    ensures r[prev] == buf[prev] + "\n"
    ensures r[prev + 1] == if tokens[prev + 1].code == Whitespace then "" else buf[prev + 1]
    ensures forall i :: 0 <= i < |buf| && i != prev && i != prev + 1 ==> r[i] == buf[i]
  {
    var b := buf[prev := buf[prev] + "\n"];
    if tokens[prev + 1].code == Whitespace then b[prev + 1 := ""] else b
  }

  /** The fixing half: one changeset holding both edits. */
  method FixSameLine(fixer: Fixer, tokens: seq<Token>, prev: nat)
    requires fixer.Valid() && !fixer.inChangeset
    requires |fixer.buffer| == |tokens| && prev + 1 < |tokens|
    modifies fixer
    ensures fixer.Valid() && !fixer.inChangeset
    ensures fixer.buffer == SplitFix(tokens, old(fixer.buffer), prev)
  {
    fixer.BeginChangeset();
    fixer.AddNewline(prev);
    if tokens[prev + 1].code == Whitespace {
      fixer.ReplaceToken(prev + 1, "");
    }
    fixer.EndChangeset();
  }

  /** `process`: finds the previous `;`, skips `for` headers, reports and
      (when fixing) splits the line. The changeset is closed again before
      it returns. */
  method Process(file: SniffFile, sp: nat)
    requires file.Valid() && !file.fixer.inChangeset && sp < |file.tokens|
    modifies file`log, file.fixer
    ensures file.Valid() && !file.fixer.inChangeset
    ensures file.log == old(file.log) + Reports(Classify(file.tokens, sp), sp)
    ensures file.fixer.buffer ==
              match Classify(file.tokens, sp)
              case SameLine(prev) => if file.fixing then SplitFix(file.tokens, old(file.fixer.buffer), prev)
                                     else old(file.fixer.buffer)
              case _ => old(file.fixer.buffer)
  {
    var tokens := file.tokens;
    var prev := FindPrevious(tokens, {Semicolon, OpenTag}, sp - 1, false);
    if prev.None? || tokens[prev.value].code == OpenTag {
      file.RecordMetric(sp, MetricName, Word("no"));
      return;
    }

    // Ignore multiple statements in a `for` header.
    var brackets := tokens[sp].nestedParens;
    for k := 0 to |brackets|
      invariant forall j :: 0 <= j < k ==> !OwnedByFor(tokens, brackets[j])
    {
      var bracket := brackets[k];
      if tokens[bracket].parenOwner.None? {
        continue;
      }
      var owner := tokens[bracket].parenOwner.value;
      if tokens[owner].code == For {
        return;
      }
    }

    var p := prev.value;
    if tokens[p].line == tokens[sp].line && tokens[p + 1].code != CloseCurlyBracket {
      file.RecordMetric(sp, MetricName, Word("yes"));
      var fix := file.AddFixableError(SameLineMessage, sp, "SameLine", []);
      if fix {
        FixSameLine(file.fixer, tokens, p);
      }
    } else {
      file.RecordMetric(sp, MetricName, Word("no"));
    }
  }

  // Worked examples

  /** `$a = 1; $b = 2;` on line 2. */
  function TwoStatements(): seq<Token>
  {
    [ Tok(OpenTag, "<?php\n", 1, 1), Tok(Variable, "$a", 2, 1), Tok(Whitespace, " ", 2, 3),
      Tok(Equal, "=", 2, 4), Tok(Whitespace, " ", 2, 5), Tok(LNumber, "1", 2, 6),
      Tok(Semicolon, ";", 2, 7), Tok(Whitespace, " ", 2, 8), Tok(Variable, "$b", 2, 9),
      Tok(Whitespace, " ", 2, 11), Tok(Equal, "=", 2, 12), Tok(Whitespace, " ", 2, 13),
      Tok(LNumber, "2", 2, 14), Tok(Semicolon, ";", 2, 15) ]
  }

  /** The example is a stream the tokenizer could produce. */
  lemma TwoStatementsWellFormed()
    ensures WellFormed(TwoStatements())
  {
  }

  /** The second `;` shares its line with the first: `SameLine`. */
  lemma TwoStatementsOnOneLine()
    ensures WellFormed(TwoStatements()) && Classify(TwoStatements(), 13) == SameLine(6)
  {
    TwoStatementsWellFormed();
    var t := TwoStatements();
    FindPreviousFinds(t, {Semicolon, OpenTag}, 12, false, 6);
    assert t[13].nestedParens == [] && t[6].line == t[13].line && t[7].code == Whitespace;
  }

  /** The fix gives `$a = 1;\n$b = 2;`: the space after the first `;` is gone. */
  lemma TwoStatementsAreSplit()
    ensures SplitFix(TwoStatements(), Contents(TwoStatements()), 6)[1..] ==
              ["$a", " ", "=", " ", "1", ";\n", "", "$b", " ", "=", " ", "2", ";"]
  {
    assert ";" + "\n" == ";\n";
  }

  /** `for ($i = 0; $i < 9; $i++) {}` on line 2, without blanks; the
      parentheses are tokens 2 and 13, owned by the `for` at 1. */
  function ForLoop(): seq<Token>
  {
    var inHeader := [13];
    [ Tok(OpenTag, "<?php\n", 1, 1), Tok(For, "for", 2, 1),
      Token(OpenParenthesis, "(", 2, 4, 1, [], Some(1)),
      Token(Variable, "$i", 2, 5, 2, inHeader, None), Token(Equal, "=", 2, 7, 1, inHeader, None),
      Token(LNumber, "0", 2, 8, 1, inHeader, None), Token(Semicolon, ";", 2, 9, 1, inHeader, None),
      Token(Variable, "$i", 2, 10, 2, inHeader, None), Token(Other, "<", 2, 12, 1, inHeader, None),
      Token(LNumber, "9", 2, 13, 1, inHeader, None), Token(Semicolon, ";", 2, 14, 1, inHeader, None),
      Token(Variable, "$i", 2, 15, 2, inHeader, None), Token(Other, "++", 2, 17, 2, inHeader, None),
      Token(CloseParenthesis, ")", 2, 19, 1, [], Some(1)),
      Tok(Other, "{", 2, 20), Tok(CloseCurlyBracket, "}", 2, 21) ]
  }

  /** The example is a stream the tokenizer could produce. */
  lemma ForLoopWellFormed()
    ensures WellFormed(ForLoop())
  {
  }

  /** The first `;` of the `for` header is the first statement after the
      open tag. */
  lemma ForInitIsFirstStatement()
    ensures WellFormed(ForLoop()) && Classify(ForLoop(), 6) == FirstStatement
  {
    ForLoopWellFormed();
    FindPreviousFinds(ForLoop(), {Semicolon, OpenTag}, 5, false, 0);
  }

  /** The second `;` of the `for` header is exempt as a `for` clause, though
      it shares its line with the first. */
  lemma ForConditionIsExempt()
    ensures WellFormed(ForLoop()) && Classify(ForLoop(), 10) == InForCondition
  {
    ForLoopWellFormed();
    var t := ForLoop();
    FindPreviousFinds(t, {Semicolon, OpenTag}, 9, false, 6);
    assert OwnedByFor(t, t[10].nestedParens[0]);
  }
}
