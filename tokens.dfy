/** The token stream of one PHP file, as the tokenizer hands it to the rules,
    and the two search primitives (`findPrevious`, `findNext`) every rule is
    built on. Tokens are addressed by their 0-based index, the "stack pointer". */
module Tokens {

  datatype Option<+T> = None | Some(value: T)

  /** The token type tags the modelled rules look at; every other tag is `Other`. */
  datatype Code =
    | Whitespace | StringConcat | ConstantEncapsedString | Equal | Return
    | Semicolon | OpenTag | For | OpenParenthesis | CloseParenthesis
    | CloseCurlyBracket | Namespace | Class | Interface | Variable | LNumber
    | StringName | NsSeparator | Other

  /** One token: its tag, text, position, and the structural annotations the
      tokenizer adds. `nestedParens` lists the parentheses enclosing the token
      (the values of its `nested_parenthesis` map); `parenOwner` is set on a
      parenthesis owned by a keyword such as `for`. */
  datatype Token = Token(
    code: Code,
    content: string,
    line: int,
    column: int,
    length: nat,
    nestedParens: seq<nat>,
    parenOwner: Option<nat>)

  /** What the tokenizer guarantees: a stream starts with the open tag (or
      inline HTML), never with an operator, and every structural annotation
      points into the stream. */
  predicate WellFormed(tokens: seq<Token>)
  {
    && |tokens| > 0
    && tokens[0].code != StringConcat
    && (forall i, k :: 0 <= i < |tokens| && 0 <= k < |tokens[i].nestedParens| ==>
          tokens[i].nestedParens[k] < |tokens|)
    && (forall i :: 0 <= i < |tokens| && tokens[i].parenOwner.Some? ==>
          tokens[i].parenOwner.value < |tokens|)
  }

  /** A token whose length is its text's length, outside any parentheses. */
  function Tok(code: Code, content: string, line: int, column: int): Token
  {
    Token(code, content, line, column, |content|, [], None)
  }

  /** The text of every token, in order: the buffer the fixer starts from. */
  function Contents(tokens: seq<Token>): (r: seq<string>)
    ensures |r| == |tokens|
    ensures forall i :: 0 <= i < |tokens| ==> r[i] == tokens[i].content
  {
    seq(|tokens|, i requires 0 <= i < |tokens| => tokens[i].content)
  }

  /** Concatenation of a run of strings (a buffer read back as file text). */
  function Join(parts: seq<string>): string
  {
    if parts == [] then "" else parts[0] + Join(parts[1..])
  }

  /** A search hit: the token's tag is among `types`, or, when `exclude` is
      set, it is not. */
  predicate Matches(t: Token, types: set<Code>, exclude: bool)
  {
    (t.code in types) != exclude
  }

  /** `findPrevious(types, start, null, exclude)`: the nearest matching token at
      or before `start`; `None` (PHP's `false`) when there is none. A negative
      `start` finds nothing. */
  function FindPrevious(tokens: seq<Token>, types: set<Code>, start: int, exclude: bool): (r: Option<nat>)
    requires start < |tokens|
    ensures r.Some? ==> r.value <= start && Matches(tokens[r.value], types, exclude)
    ensures r.Some? ==> forall j :: r.value < j <= start ==> !Matches(tokens[j], types, exclude)
    ensures r.None? ==> forall j :: 0 <= j <= start ==> !Matches(tokens[j], types, exclude)
    decreases start + 1
  {
    if start < 0 then None
    else if Matches(tokens[start], types, exclude) then Some(start)
    else FindPrevious(tokens, types, start - 1, exclude)
  }

  /** `findNext(types, start, null, exclude)`: the nearest matching token at or
      after `start`; `None` when the rest of the file has none. */
  function FindNext(tokens: seq<Token>, types: set<Code>, start: nat, exclude: bool): (r: Option<nat>)
    ensures r.Some? ==> start <= r.value < |tokens| && Matches(tokens[r.value], types, exclude)
    ensures r.Some? ==> forall j :: start <= j < r.value ==> !Matches(tokens[j], types, exclude)
    ensures r.None? ==> forall j :: start <= j < |tokens| ==> !Matches(tokens[j], types, exclude)
    decreases |tokens| - start
  {
    if start >= |tokens| then None
    else if Matches(tokens[start], types, exclude) then Some(start)
    else FindNext(tokens, types, start + 1, exclude)
  }

  /** The index PHP reads when a search result is used as an array key:
      `$tokens[false]` is `$tokens[0]`. */
  function KeyOf(r: Option<nat>): nat
  {
    if r.Some? then r.value else 0
  }

  /** A backward search only looks at tokens up to its start: two streams
      that agree there give the same answer. */
  lemma {:induction false} FindPreviousLocal(t1: seq<Token>, t2: seq<Token>, types: set<Code>, start: int, exclude: bool)
    requires start < |t1| && start < |t2|
    requires forall j :: 0 <= j <= start ==> t1[j] == t2[j]
    ensures FindPrevious(t1, types, start, exclude) == FindPrevious(t2, types, start, exclude)
    decreases start + 1
  {
    if start >= 0 && !Matches(t1[start], types, exclude) {
      FindPreviousLocal(t1, t2, types, start - 1, exclude);
    }
  }

  /** A backward search stops at the nearest match: a matching token with
      no match between it and the start is the answer. */
  lemma {:induction false} FindPreviousFinds(tokens: seq<Token>, types: set<Code>, start: int, exclude: bool, q: nat)
    requires q <= start < |tokens|
    requires Matches(tokens[q], types, exclude)
    requires forall j :: q < j <= start ==> !Matches(tokens[j], types, exclude)
    ensures FindPrevious(tokens, types, start, exclude) == Some(q)
    decreases start
  {
    if start > q {
      FindPreviousFinds(tokens, types, start - 1, exclude, q);
    }
  }
}
