/** `ClassHelper`: answers, for the file being inspected, whether its class
    is a PHPUnit test class and whether a method is a test method. The class
    hierarchy is resolved once per helper (a failed resolution is cached as
    well), and both answers are memoized per stack pointer. The class
    registry behind `class_exists`, `interface_exists`, `class_parents` and
    `class_implements` is a fixed oracle from a qualified name to the merged
    list of parents and interfaces, `None` when no such class or interface
    is loaded. */
module ClassHelpers {
  import opened Tokens
  import opened SniffFiles

  /** The cached resolution: PHP's `false` or the list of names. */
  datatype Hierarchy = Unloadable | Loaded(names: seq<string>)

  /** How resolution ends: no declaration found, a declaration the registry
      does not know, or a known one with its ancestors. */
  datatype Lookup = NoDeclaration | NotLoaded(name: string) | Found(name: string, ancestors: seq<string>)

  /** The PHPUnit base classes that make a class a test class. */
  const Prototypes := ["PHPUnit_Framework_TestCase", "PHPUnit\\Framework\\TestCase"]

  const ClassLoaderCode := "Internal.I2ct.NeedClassLoader"
  const TestClassReason := "check for PHPUnit test class"

  /** The first `namespace` keyword, if any. */
  function NamespaceStart(tokens: seq<Token>): (r: Option<nat>)
    ensures r.Some? ==> r.value < |tokens| && tokens[r.value].code == Namespace
    ensures r.Some? ==> forall j :: 0 <= j < r.value ==> tokens[j].code != Namespace
    ensures r.None? <==> forall j :: 0 <= j < |tokens| ==> tokens[j].code != Namespace
  {
    FindNext(tokens, {Namespace}, 0, false)
  }

  /** A namespace statement is closed by a `;`. Without one the source's
      search for the declaration starts at PHP's `false` and never moves on,
      so the source does not return on such a file. */
  predicate NamespaceTerminated(tokens: seq<Token>)
  {
    NamespaceStart(tokens).Some? ==> FindNext(tokens, {Semicolon}, NamespaceStart(tokens).value + 2, false).Some?
  }

  /** Where the search for the class declaration starts: the `;` ending the
      namespace statement, or the first token. */
  function NamespaceEnd(tokens: seq<Token>): (e: nat)
    requires NamespaceTerminated(tokens)
    ensures NamespaceStart(tokens).None? ==> e == 0
    ensures NamespaceStart(tokens).Some? ==>
              && NamespaceStart(tokens).value + 2 <= e < |tokens| && tokens[e].code == Semicolon
              && forall j :: NamespaceStart(tokens).value + 2 <= j < e ==> tokens[j].code != Semicolon
  {
    if NamespaceStart(tokens).None? then 0
    else FindNext(tokens, {Semicolon}, NamespaceStart(tokens).value + 2, false).value
  }

  /** What goes before the declaration's name: the namespace's tokens
      (skipping the keyword and the blank after it) followed by `\`, or
      nothing outside a namespace. */
  function NamespacePrefix(tokens: seq<Token>): (r: string)
    requires NamespaceTerminated(tokens)
    ensures NamespaceStart(tokens).None? ==> r == ""
    ensures NamespaceStart(tokens).Some? ==> |r| > 0 && r[|r| - 1] == '\\'
  {
    if NamespaceStart(tokens).None? then ""
    else Join(Contents(tokens)[NamespaceStart(tokens).value + 2..NamespaceEnd(tokens)]) + "\\"
  }

  /** `c` is the first `class` or `interface` keyword after the namespace. */
  predicate FirstDeclaration(tokens: seq<Token>, c: nat)
    requires NamespaceTerminated(tokens)
  {
    && NamespaceEnd(tokens) <= c < |tokens|
    && (tokens[c].code == Class || tokens[c].code == Interface)
    && forall j :: NamespaceEnd(tokens) <= j < c ==> tokens[j].code != Class && tokens[j].code != Interface
  }

  /** The resolution `getClassParentsAndInterfaces` performs on its first call. */
  function LookUp(tokens: seq<Token>, declarationName: nat -> string,
                  registry: string -> Option<seq<string>>): (l: Lookup)
    requires NamespaceTerminated(tokens)
    ensures l.NoDeclaration? <==>
              forall j :: NamespaceEnd(tokens) <= j < |tokens| ==> tokens[j].code != Class && tokens[j].code != Interface
    ensures !l.NoDeclaration? ==>
              exists c :: FirstDeclaration(tokens, c) && l.name == NamespacePrefix(tokens) + declarationName(c)
    ensures l.NotLoaded? <==> !l.NoDeclaration? && registry(l.name).None?
    ensures l.Found? ==> registry(l.name) == Some(l.ancestors)
  {
    var classPtr := FindNext(tokens, {Class, Interface}, NamespaceEnd(tokens), false);
    if classPtr.None? then NoDeclaration
    else
      var name := NamespacePrefix(tokens) + declarationName(classPtr.value);
      match registry(name)
      case None => NotLoaded(name)
      case Some(ancestors) => Found(name, ancestors)
  }

  /** The value the cache settles on. */
  function Resolved(l: Lookup): Hierarchy
  {
    if l.Found? then Loaded(l.ancestors) else Unloadable
  }

  /** What the cache ends up holding, end to end: the registry's list for
      the qualified name of the first declaration after the namespace, and
      `false` when that name is not loaded or there is no declaration. */
  lemma ResolvedMeans(tokens: seq<Token>, declarationName: nat -> string, registry: string -> Option<seq<string>>)
    requires NamespaceTerminated(tokens)
    ensures forall c :: FirstDeclaration(tokens, c) ==>
              Resolved(LookUp(tokens, declarationName, registry)) ==
                var ancestors := registry(NamespacePrefix(tokens) + declarationName(c));
                if ancestors.Some? then Loaded(ancestors.value) else Unloadable
    ensures (forall c :: !FirstDeclaration(tokens, c)) ==> Resolved(LookUp(tokens, declarationName, registry)) == Unloadable
  {
    forall c | FirstDeclaration(tokens, c) {
      LookUpNames(tokens, declarationName, registry, c);
    }
  }

  /** At the first declaration `c`, the registry is asked for the prefix
      plus `c`'s declared name. */
  lemma LookUpNames(tokens: seq<Token>, declarationName: nat -> string,
                    registry: string -> Option<seq<string>>, c: nat)
    requires NamespaceTerminated(tokens) && FirstDeclaration(tokens, c)
    ensures var l := LookUp(tokens, declarationName, registry);
            !l.NoDeclaration? && l.name == NamespacePrefix(tokens) + declarationName(c)
  {
    var l := LookUp(tokens, declarationName, registry);
    assert !l.NoDeclaration?;
    var c' :| FirstDeclaration(tokens, c') && l.name == NamespacePrefix(tokens) + declarationName(c');
    assert c' == c;
  }

  /** A class is a test class when one of its ancestors is a prototype. */
  predicate IsTestHierarchy(h: Hierarchy)
  {
    h.Loaded? && exists i :: 0 <= i < |h.names| && h.names[i] in Prototypes
  }

  /** ASCII lower case, as `stripos` folds letters. */
  function LowerAscii(s: string): (r: string)
    ensures |r| == |s|
    ensures forall i :: 0 <= i < |s| ==>
              r[i] == if 'A' <= s[i] <= 'Z' then (s[i] as int + 32) as char else s[i]
  {
    seq(|s|, i requires 0 <= i < |s| => if 'A' <= s[i] <= 'Z' then (s[i] as int + 32) as char else s[i])
  }

  /** `stripos(name, 'test') === 0`. */
  predicate HasTestPrefix(name: string)
  {
    |name| >= 4 && LowerAscii(name[..4]) == "test"
  }

  /** The method half of `isTestClassMethod`: public, concrete, not a
      closure, and named `test...` in any case. */
  predicate IsTestMethod(props: MethodProperties, name: string)
  {
    props.scope == "public" && !props.isAbstract && !props.isClosure && HasTestPrefix(name)
  }

  /** Concatenating one more string onto a joined run. */
  lemma {:induction false} JoinSnoc(parts: seq<string>, last: string)
    ensures Join(parts + [last]) == Join(parts) + last
  {
    if parts != [] {
      assert (parts + [last])[1..] == parts[1..] + [last];
      JoinSnoc(parts[1..], last);
    }
  }

  /** The prefix test ignores case: a name and its lower-cased form agree. */
  lemma TestPrefixIgnoresCase(name: string)
    ensures HasTestPrefix(name) <==> HasTestPrefix(LowerAscii(name))
  {
    if |name| >= 4 {
      assert LowerAscii(name)[..4] == LowerAscii(name[..4]);
      assert LowerAscii(LowerAscii(name[..4])) == LowerAscii(name[..4]);
    }
  }

  /** Only the first four characters matter: whatever follows a test
      prefix, the name keeps it. */
  lemma TestPrefixExtends(name: string, rest: string)
    requires HasTestPrefix(name)
    ensures HasTestPrefix(name + rest)
  {
    assert (name + rest)[..4] == name[..4];
  }

  /** A failed resolution never makes a test class. */
  lemma UnresolvedIsNoTestClass(l: Lookup)
    requires !l.Found?
    ensures !IsTestHierarchy(Resolved(l))
  {
  }

  /** Every memoized test-method answer is the test-class answer memoized
      at the same pointer combined with the method's own properties. */
  predicate MethodTableAgrees(classes: map<nat, bool>, methods: map<nat, bool>,
                              props: nat -> MethodProperties, names: nat -> string)
  {
    forall p :: p in methods ==> p in classes && methods[p] == (classes[p] && IsTestMethod(props(p), names(p)))
  }

  /** Memoizing one more method keeps the method table in agreement. */
  lemma MethodTableExtends(classes: map<nat, bool>, methods: map<nat, bool>,
                           props: nat -> MethodProperties, names: nat -> string, sp: nat, isTest: bool)
    requires MethodTableAgrees(classes, methods, props, names)
    requires sp in classes ==> classes[sp] == isTest
    ensures MethodTableAgrees(classes[sp := isTest], methods[sp := isTest && IsTestMethod(props(sp), names(sp))], props, names)
  {
  }

  /** The first half of `getClassParentsAndInterfaces`: the namespace
      prefix, built token by token, and where the namespace statement ends. */
  method BuildNamespace(tokens: seq<Token>) returns (prefix: string, nsEnd: nat)
    requires NamespaceTerminated(tokens)
    ensures prefix == NamespacePrefix(tokens) && nsEnd == NamespaceEnd(tokens)
  {
    var nsStart := FindNext(tokens, {Namespace}, 0, false);
    prefix := "";
    if nsStart.Some? {
      nsEnd := FindNext(tokens, {Semicolon}, nsStart.value + 2, false).value;
      var i := nsStart.value + 2;
      while i < nsEnd
        invariant nsStart.value + 2 <= i <= nsEnd
        invariant prefix == Join(Contents(tokens)[nsStart.value + 2..i])
      {
        assert Contents(tokens)[nsStart.value + 2..i + 1] == Contents(tokens)[nsStart.value + 2..i] + [tokens[i].content];
        JoinSnoc(Contents(tokens)[nsStart.value + 2..i], tokens[i].content);
        prefix := prefix + tokens[i].content;
        i := i + 1;
      }
      prefix := prefix + "\\";
    } else {
      nsEnd := 0;
    }
  }

  class ClassHelper {
    const file: SniffFile
    /** The reflection oracle: a qualified name to its merged parents and
        interfaces. */
    const registry: string -> Option<seq<string>>
    /** `null` (`None`) until the first resolution. */
    var parentsAndInterfaces: Option<Hierarchy>
    var testClasses: map<nat, bool>
    var testClassMethods: map<nat, bool>

    /** The resolution this helper's file and registry determine. */
    ghost function Expected(): Hierarchy
      requires NamespaceTerminated(file.tokens)
    {
      Resolved(LookUp(file.tokens, file.declarationName, registry))
    }

    /** The resolution cache, once set, holds the resolution. */
    ghost predicate Resolves()
      reads this`parentsAndInterfaces
    {
      NamespaceTerminated(file.tokens) && (parentsAndInterfaces.Some? ==> parentsAndInterfaces.value == Expected())
    }

    /** Every memoized test-class answer is the answer, and was computed
        after resolution. */
    ghost predicate ClassesValid()
      reads this`parentsAndInterfaces, this`testClasses
    {
      && Resolves()
      && forall p :: p in testClasses ==>
           parentsAndInterfaces.Some? && testClasses[p] == IsTestHierarchy(Expected())
    }

    /** Every memoized test-method answer combines the test-class answer
        memoized at the same pointer with the method's properties. */
    ghost predicate Valid()
      reads this`parentsAndInterfaces, this`testClasses, this`testClassMethods
    {
      ClassesValid() && MethodTableAgrees(testClasses, testClassMethods, file.methodProperties, file.declarationName)
    }

    constructor (file: SniffFile, registry: string -> Option<seq<string>>)
      requires NamespaceTerminated(file.tokens)
      ensures Valid()
      ensures this.file == file && this.registry == registry
      ensures parentsAndInterfaces.None? && testClasses == map[] && testClassMethods == map[]
    {
      this.file := file;
      this.registry := registry;
      parentsAndInterfaces := None;
      testClasses := map[];
      testClassMethods := map[];
    }

    /** `getClassParentsAndInterfaces`: resolves on the first call only. A
        declaration the registry does not know is warned about (at `sp`,
        citing `reason`), and only on that first call. */
    method GetClassParentsAndInterfaces(sp: nat, reason: string) returns (r: Hierarchy)
      requires Resolves()
      modifies this`parentsAndInterfaces, file`log
      ensures Resolves()
      ensures r == Expected() && parentsAndInterfaces == Some(r)
      ensures file.log ==
                if old(parentsAndInterfaces).None? && LookUp(file.tokens, file.declarationName, registry).NotLoaded?
                then old(file.log) + [Warning(sp, ClassLoaderCode, "Need class loader to " + reason)]
                else old(file.log)
    {
      if parentsAndInterfaces.None? {
        // Set the default value.
        parentsAndInterfaces := Some(Unloadable);

        var tokens := file.tokens;
        var name, nsEnd := BuildNamespace(tokens);

        // Find the class/interface declaration.
        var classPtr := FindNext(tokens, {Class, Interface}, nsEnd, false);
        if classPtr.Some? {
          name := name + file.declarationName(classPtr.value);
          var ancestors := registry(name);
          if ancestors.Some? {
            parentsAndInterfaces := Some(Loaded(ancestors.value));
          } else {
            file.AddWarning("Need class loader to " + reason, sp, ClassLoaderCode);
          }
        }
      }
      r := parentsAndInterfaces.value;
    }

    /** `isTestClass`: memoized per pointer; a repeated call changes nothing. */
    method IsTestClass(sp: nat) returns (r: bool)
      requires ClassesValid()
      modifies this`parentsAndInterfaces, this`testClasses, file`log
      ensures ClassesValid()
      ensures r == IsTestHierarchy(Expected())
      ensures testClasses == old(testClasses)[sp := r]
      ensures sp in old(testClasses) ==> parentsAndInterfaces == old(parentsAndInterfaces)
      ensures file.log ==
                if sp !in old(testClasses) && old(parentsAndInterfaces).None?
                   && LookUp(file.tokens, file.declarationName, registry).NotLoaded?
                then old(file.log) + [Warning(sp, ClassLoaderCode, "Need class loader to " + TestClassReason)]
                else old(file.log)
    {
      if sp !in testClasses {
        testClasses := testClasses[sp := false];

        var classes := GetClassParentsAndInterfaces(sp, TestClassReason);
        if classes.Loaded? {
          var k := 0;
          while k < |classes.names|
            invariant k <= |classes.names|
            invariant forall j :: 0 <= j < k ==> classes.names[j] !in Prototypes
            invariant testClasses == old(testClasses)[sp := false]
          {
            if classes.names[k] in Prototypes {
              testClasses := testClasses[sp := true];
              break;
            }
            k := k + 1;
          }
        }
      }
      r := testClasses[sp];
    }

    /** `isTestClassMethod`: memoized per pointer. The test-class question is
        asked at the method's own pointer. */
    method IsTestClassMethod(sp: nat) returns (r: bool)
      requires Valid()
      modifies this`parentsAndInterfaces, this`testClasses, this`testClassMethods, file`log
      ensures Valid()
      ensures r == (IsTestHierarchy(Expected()) && IsTestMethod(file.methodProperties(sp), file.declarationName(sp)))
      ensures testClassMethods == old(testClassMethods)[sp := r]
      ensures testClasses == if sp in old(testClassMethods) then old(testClasses)
                             else old(testClasses)[sp := IsTestHierarchy(Expected())]
      ensures sp in old(testClassMethods) ==> parentsAndInterfaces == old(parentsAndInterfaces)
      ensures file.log ==
                if sp !in old(testClassMethods) && sp !in old(testClasses) && old(parentsAndInterfaces).None?
                   && LookUp(file.tokens, file.declarationName, registry).NotLoaded?
                then old(file.log) + [Warning(sp, ClassLoaderCode, "Need class loader to " + TestClassReason)]
                else old(file.log)
    {
      if sp !in testClassMethods {
        ghost var classes, methods := testClasses, testClassMethods;
        testClassMethods := testClassMethods[sp := false];
        var isTest := IsTestClass(sp);
        assert ClassesValid() && testClasses == classes[sp := isTest];
        RecordTestMethod(sp, isTest);
        assert testClassMethods == methods[sp := isTest && IsTestMethod(file.methodProperties(sp), file.declarationName(sp))];
        MethodTableExtends(classes, methods, file.methodProperties, file.declarationName, sp, isTest);
      }
      r := testClassMethods[sp];
    }

    /** The second half of `isTestClassMethod`: in a test class, the entry
        for `sp`, set to `false` beforehand, becomes `true` for a public,
        concrete, named method whose name starts with `test`. */
    method RecordTestMethod(sp: nat, isTest: bool)
      requires sp in testClassMethods && !testClassMethods[sp]
      modifies this`testClassMethods
      ensures testClassMethods == old(testClassMethods)[sp := isTest && IsTestMethod(file.methodProperties(sp), file.declarationName(sp))]
    {
      if isTest {
        var props := file.methodProperties(sp);
        if props.scope == "public" && !props.isAbstract && !props.isClosure
           && HasTestPrefix(file.declarationName(sp)) {
          testClassMethods := testClassMethods[sp := true];
        }
      }
    }
  }

  // Worked example

  /** `namespace App\Tests;` then `class FooTest`. */
  function TestFile(): seq<Token>
  {
    [ Tok(OpenTag, "<?php\n", 1, 1), Tok(Namespace, "namespace", 2, 1), Tok(Whitespace, " ", 2, 10),
      Tok(StringName, "App", 2, 11), Tok(NsSeparator, "\\", 2, 14), Tok(StringName, "Tests", 2, 15),
      Tok(Semicolon, ";", 2, 20), Tok(Whitespace, "\n", 2, 21), Tok(Class, "class", 3, 1),
      Tok(Whitespace, " ", 3, 6), Tok(StringName, "FooTest", 3, 7) ]
  }

  /** The namespace statement runs from token 1 to the `;` at 6. */
  lemma TestFileNamespace()
    ensures NamespaceStart(TestFile()) == Some(1)
    ensures NamespaceTerminated(TestFile()) && NamespaceEnd(TestFile()) == 6
  {
    var t := TestFile();
    assert FindNext(t, {Namespace}, 1, false) == Some(1);
    assert FindNext(t, {Semicolon}, 6, false) == Some(6);
  }

  /** The prefix is the namespace's tokens joined, then `\`. */
  lemma TestFilePrefix()
    ensures NamespaceTerminated(TestFile()) && NamespacePrefix(TestFile()) == "App\\Tests\\"
  {
    TestFileNamespace();
    assert Contents(TestFile())[3..6] == ["App", "\\", "Tests"];
    assert Join(["Tests"]) == "Tests";
    assert Join(["\\", "Tests"]) == "\\Tests";
    assert Join(["App", "\\", "Tests"]) == "App\\Tests";
  }

  /** The registry is asked for the namespace-qualified name. */
  lemma TestFileQualifiedName(declarationName: nat -> string, registry: string -> Option<seq<string>>)
    requires declarationName(8) == "FooTest"
    ensures NamespaceTerminated(TestFile())
    ensures var l := LookUp(TestFile(), declarationName, registry);
            !l.NoDeclaration? && l.name == "App\\Tests\\FooTest"
  {
    var t := TestFile();
    TestFileNamespace();
    TestFilePrefix();
    assert t[6].code == Semicolon && t[7].code == Whitespace && t[8].code == Class;
    assert FirstDeclaration(t, 8);
    LookUpNames(t, declarationName, registry, 8);
  }
}
