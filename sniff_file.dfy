/** The file a rule inspects: its read-only token stream, the fixer over
    its text, the log of errors, warnings and metrics the rules record, and
    the engine queries the rules call but whose code is not part of this
    model (start of statement, declaration name, method properties), given
    here as fixed oracles. */
module SniffFiles {
  import opened Tokens
  import opened Fixing

  /** A metric value: PHP records either a number or a word. */
  datatype MetricValue = Number(n: int) | Word(w: string)

  datatype Report =
    | Error(ptr: nat, code: string, message: string, data: seq<int>, fixable: bool)
    | Warning(ptr: nat, code: string, message: string)
    | Metric(ptr: nat, name: string, value: MetricValue)

  /** What `getMethodProperties` reports of a method declaration. */
  datatype MethodProperties = MethodProperties(scope: string, isAbstract: bool, isClosure: bool)

  class SniffFile {
    const tokens: seq<Token>
    const fixer: Fixer
    /** Whether the fixer is running, i.e. what `addFixableError` returns. */
    const fixing: bool
    /** `findStartOfStatement`. */
    const startOfStatement: nat -> nat
    /** `getDeclarationName`. */
    const declarationName: nat -> string
    /** `getMethodProperties`. */
    const methodProperties: nat -> MethodProperties
    var log: seq<Report>

    ghost predicate Valid()
      reads this, fixer
    {
      && WellFormed(tokens)
      && fixer.Valid()
      && |fixer.buffer| == |tokens|
      && (forall p: nat :: startOfStatement(p) <= p)
    }

    constructor (tokens: seq<Token>, fixing: bool, startOfStatement: nat -> nat,
                 declarationName: nat -> string, methodProperties: nat -> MethodProperties)
      requires WellFormed(tokens)
      requires forall p: nat :: startOfStatement(p) <= p
      ensures Valid() && fresh(fixer)
      ensures this.tokens == tokens && this.fixing == fixing
      ensures this.startOfStatement == startOfStatement
      ensures this.declarationName == declarationName
      ensures this.methodProperties == methodProperties
      ensures fixer.buffer == Contents(tokens) && !fixer.inChangeset
      ensures log == []
    {
      this.tokens := tokens;
      this.fixing := fixing;
      this.startOfStatement := startOfStatement;
      this.declarationName := declarationName;
      this.methodProperties := methodProperties;
      fixer := new Fixer(Contents(tokens));
      log := [];
    }

    /** `addFixableError`: records a fixable error; answers whether to fix it. */
    method AddFixableError(message: string, ptr: nat, code: string, data: seq<int>) returns (fix: bool)
      modifies this`log
      ensures log == old(log) + [Error(ptr, code, message, data, true)]
      ensures fix == fixing
    {
      log := log + [Error(ptr, code, message, data, true)];
      fix := fixing;
    }

    /** `addWarning`. */
    method AddWarning(message: string, ptr: nat, code: string)
      modifies this`log
      ensures log == old(log) + [Warning(ptr, code, message)]
    {
      log := log + [Warning(ptr, code, message)];
    }

    /** `recordMetric`. */
    method RecordMetric(ptr: nat, name: string, value: MetricValue)
      modifies this`log
      ensures log == old(log) + [Metric(ptr, name, value)]
    {
      log := log + [Metric(ptr, name, value)];
    }
  }
}
