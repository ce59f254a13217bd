/** The compile-time half of dispatch: the annotation processor that, for every
    type annotated `@EventsListener`, writes a helper class implementing that
    contract. Each generated method looks the matching listeners up and hands
    one call per listener to `EventsHelper.scheduleRunnable`.

    Elements and their enclosed members are datatypes; the JavaPoet builders,
    the `Filer` and the `Messager` are replaced by the structured class they
    produce and by the list of error messages they report. */
module AnnotationProcessor {
  import opened Base
  import opened Strings
  import opened EventsOnThread

  datatype ElementKind =
    | Package | Interface | Class | Enum | AnnotationType | Method | Constructor | Field | OtherKind

  datatype Modifier = Public | Protected | Private | Abstract | Static | Final | Default | OtherModifier

  /** A member enclosed by an annotated type: its kind and simple name and,
      for a method, whether it carries `@Ignore`, whether it returns `void`,
      the value of its `@EventsOnThread` annotation if it has one, and the
      names of its parameters in order. */
  datatype Enclosed = Enclosed(
    kind: ElementKind,
    simpleName: string,
    ignored: bool,
    returnsVoid: bool,
    threadAnnotation: Option<int>,
    params: seq<string>)

  /** An element annotated `@EventsListener`. Its `toString()` is modelled by
      its qualified name, and `typeId` is the class the element declares. */
  datatype Element = Element(
    kind: ElementKind,
    modifiers: set<Modifier>,
    qualifiedName: string,
    typeId: ClassId,
    enclosed: seq<Enclosed>)

  /** A method of a generated helper class: either a stub whose body only
      throws `UnsupportedOperationException(message)`, or a forwarder whose
      body is the fixed template
        `List<C> listeners = mEventsHelper.getListenersByClass(C.class, mTag);`
        `for (C listener : listeners) { <invokeStatement>; }`
      which `Core.Forwarder.Invoke` gives its meaning. */
  datatype GeneratedMethod =
    | IgnoredStub(name: string, params: seq<string>, message: string)
    | Forwarding(name: string, params: seq<string>, threadType: int, invokeStatement: string)

  /** A statement `this.<field> = <param>` of the generated constructor. */
  datatype Assignment = Assignment(field: string, param: string)

  /** A generated helper class: its package and simple name, the contract it
      implements, its two private fields, its constructor and its methods. */
  datatype GeneratedClass = GeneratedClass(
    packageName: string,
    simpleName: string,
    contract: ClassId,
    contractName: string,
    fields: seq<string>,
    constructorParams: seq<string>,
    constructorBody: seq<Assignment>,
    methods: seq<GeneratedMethod>)

  const GeneratedPackage: string := "moe.feng.common.eventshelper"
  const HelperPrefix: string := "Helper$$"
  const TagField: string := "mTag"
  const HelperField: string := "mEventsHelper"
  const IgnoredMessage: string :=
    "This method is ignored. If you want to call this method by helpers, "
    + "please remove @Ignore annotation from interface."
  const InvokePrefix: string := "mEventsHelper.scheduleRunnable(() -> listener."

  /** An element the processor can implement: an interface, or a class that
      carries the `abstract` modifier. */
  predicate IsValidEventsListenerElement(e: Element)
  {
    e.kind == Interface || (e.kind == Class && Abstract in e.modifiers)
  }

  /** The simple name of the helper generated for a contract. */
  function HelperClassName(qualifiedName: string): string
  {
    HelperPrefix + ReplaceChar(qualifiedName, '.', '_')
  }

  /** The helper name is the prefix followed by the qualified name with every
      dot turned into an underscore, so it contains no dot. */
  lemma HelperClassNameShape(q: string)
    ensures |HelperClassName(q)| == |HelperPrefix| + |q|
    ensures HelperClassName(q)[..|HelperPrefix|] == HelperPrefix
    ensures forall i :: 0 <= i < |q| ==>
      HelperClassName(q)[|HelperPrefix| + i] == (if q[i] == '.' then '_' else q[i])
    ensures '.' !in HelperClassName(q)
  {
    var r := HelperClassName(q);
    ReplaceCharRemoves(q, '.', '_');
    forall i | 0 <= i < |r| ensures r[i] != '.' {
      if i >= |HelperPrefix| {
        assert r[i] == ReplaceChar(q, '.', '_')[i - |HelperPrefix|];
      }
    }
  }

  /** The mangling is not injective: two distinct contracts can be given the
      same helper name. */
  lemma MangledNamesCollide()
    ensures "a.b_c" != "a_b.c"
    ensures HelperClassName("a.b_c") == HelperClassName("a_b.c")
  {
    assert "a.b_c"[1] != "a_b.c"[1];
    var x, y := ReplaceChar("a.b_c", '.', '_'), ReplaceChar("a_b.c", '.', '_');
    assert x == "a_b_c" && y == "a_b_c";
  }

  // ---------------------------------------------------------------------------
  // The dispatch statement

  /** The statement a forwarder runs for each listener:
      `mEventsHelper.scheduleRunnable(() -> listener.m(p1, ..., pn), t)`. */
  function InvokeStatement(name: string, params: seq<string>, threadType: int): string
  {
    StatementAfter(InvokePrefix, name, params, threadType)
  }

  /** The statement text after a given receiver prefix; the proofs below do
      not depend on what the prefix says. */
  function StatementAfter(prefix: string, name: string, params: seq<string>, threadType: int): string
  {
    prefix + name + "(" + Join(params, ", ") + "), " + IntToDecimal(threadType) + ")"
  }

  /** What a dispatch statement says: which method it calls on each listener,
      with which arguments, on which thread type. */
  datatype InvokeParts = InvokeParts(methodName: string, params: seq<string>, threadType: int)

  /** Reads a dispatch statement back. */
  function ParseInvokeStatement(s: string): Option<InvokeParts>
  {
    ParseStatementAfter(InvokePrefix, s)
  }

  function ParseStatementAfter(prefix: string, s: string): Option<InvokeParts>
  {
    if |s| < |prefix| || s[..|prefix|] != prefix then None else ParseCall(s[|prefix|..])
  }

  /** `name(args), t)`: the method name runs up to the first parenthesis. */
  function ParseCall(text: string): Option<InvokeParts>
  {
    match IndexOf(text, '(')
    case None => None
    case Some(i) => ParseArguments(text[..i], text[i + 1..])
  }

  /** `args), t)`: the argument list runs up to the first closing parenthesis. */
  function ParseArguments(name: string, text: string): Option<InvokeParts>
  {
    match IndexOf(text, ')')
    case None => None
    case Some(j) => ParseThreadType(name, SplitParams(text[..j]), text[j..])
  }

  /** `), t)`: the thread type in decimal. */
  function ParseThreadType(name: string, params: seq<string>, tail: string): Option<InvokeParts>
  {
    if |tail| < 4 || tail[..3] != "), " || tail[|tail| - 1] != ')' then None
    else match ParseInt(tail[3..|tail| - 1])
      case None => None
      case Some(t) => Some(InvokeParts(name, params, t))
  }

  lemma ThreadTypeRoundTrip(name: string, params: seq<string>, threadType: int)
    ensures ParseThreadType(name, params, ")" + (", " + IntToDecimal(threadType) + ")"))
      == Some(InvokeParts(name, params, threadType))
  {
    var tail := ")" + (", " + IntToDecimal(threadType) + ")");
    assert tail[..3] == "), ";
    assert tail[3..|tail| - 1] == IntToDecimal(threadType);
    IntDecimalRoundTrip(threadType);
  }

  /** The argument list ends at the first closing parenthesis after it. */
  lemma ArgumentsRoundTrip(name: string, params: seq<string>, rest: string)
    requires AllIdentifiers(params)
    ensures ParseArguments(name, Join(params, ", ") + ")" + rest)
      == ParseThreadType(name, params, ")" + rest)
  {
    var joined := Join(params, ", ");
    JoinedIdentifiersExclude(params, ')');
    var text := joined + ")" + rest;
    assert text == joined + [')'] + rest;
    IndexOfAfter(joined, ')', rest);
    assert text[..|joined|] == joined && text[|joined|..] == ")" + rest;
    SplitJoin(params);
  }

  /** The method name ends at the first opening parenthesis after it. */
  lemma CallRoundTrip(name: string, after: string)
    requires IsIdentifier(name)
    ensures ParseCall(name + "(" + after) == ParseArguments(name, after)
  {
    var text := name + "(" + after;
    assert text == name + ['('] + after;
    IdentifierExcludes(name, '(');
    IndexOfAfter(name, '(', after);
    assert text[..|name|] == name && text[|name| + 1..] == after;
  }

  /** The text after the receiver prefix is read as a call. */
  lemma PrefixRoundTrip(prefix: string, call: string)
    ensures ParseStatementAfter(prefix, prefix + call) == ParseCall(call)
  {
    var s := prefix + call;
    assert s[..|prefix|] == prefix && s[|prefix|..] == call;
  }

  lemma StatementAfterRoundTrip(prefix: string, name: string, params: seq<string>, threadType: int)
    requires IsIdentifier(name) && AllIdentifiers(params)
    ensures ParseStatementAfter(prefix, StatementAfter(prefix, name, params, threadType))
      == Some(InvokeParts(name, params, threadType))
  {
    var joined, digits := Join(params, ", "), IntToDecimal(threadType);
    var rest := ", " + digits + ")";
    var after := joined + ")" + rest;
    var call := name + "(" + after;
    assert StatementAfter(prefix, name, params, threadType) == prefix + call;
    PrefixRoundTrip(prefix, call);
    CallRoundTrip(name, after);
    ArgumentsRoundTrip(name, params, rest);
    ThreadTypeRoundTrip(name, params, threadType);
  }

  /** The generated statement means what it was built from: reading it back
      gives the method name, every parameter in order and the thread type. */
  lemma InvokeStatementRoundTrip(name: string, params: seq<string>, threadType: int)
    requires IsIdentifier(name) && AllIdentifiers(params)
    ensures ParseInvokeStatement(InvokeStatement(name, params, threadType))
      == Some(InvokeParts(name, params, threadType))
  {
    StatementAfterRoundTrip(InvokePrefix, name, params, threadType);
  }

  /** A method without parameters is called as `m()`: no separator is left
      behind by the trimming of the parameter list. */
  lemma NoParameterStatement(name: string, threadType: int)
    ensures InvokeStatement(name, [], threadType)
      == InvokePrefix + name + "()" + ", " + IntToDecimal(threadType) + ")"
  {
  }

  lemma AppendAssoc<T>(a: seq<T>, b: seq<T>, c: seq<T>)
    ensures a + (b + c) == a + b + c
  {
  }

  /** `processEventsListener`'s `StringBuilder`: every parameter name is
      appended followed by ", ", the last two characters are cut off with
      `setLength`, and the thread type is appended in decimal. */
  method BuildInvokeStatement(name: string, params: seq<string>, threadType: int) returns (s: string)
    ensures s == InvokeStatement(name, params, threadType)
  {
    var sb := InvokePrefix;
    sb := sb + name + "(";
    ghost var head := sb;
    if |params| > 0 {
      var i := 0;
      while i < |params|
        invariant 0 <= i <= |params|
        invariant sb == head + JoinTerminated(params[..i], ", ")
      {
        assert params[..i + 1][..i] == params[..i];
        AppendAssoc(head, JoinTerminated(params[..i], ", "), params[i]);
        AppendAssoc(head, JoinTerminated(params[..i], ", ") + params[i], ", ");
        sb := sb + params[i] + ", ";
        i := i + 1;
      }
      assert params[..i] == params;
      TrimmedJoinTerminated(params, ", ");
      TrimAppended(head, JoinTerminated(params, ", "), 2);
      sb := sb[..|sb| - 2];
    } else {
      assert head + Join(params, ", ") == head;
    }
    sb := sb + "), " + IntToDecimal(threadType) + ")";
    s := sb;
  }

  lemma TrimAppended(head: string, t: string, n: nat)
    requires |t| >= n
    ensures (head + t)[..|head + t| - n] == head + t[..|t| - n]
  {
  }

  // ---------------------------------------------------------------------------
  // One contract

  /** The method generated for one enclosed method. */
  function GenerateMethod(m: Enclosed): GeneratedMethod
  {
    if m.ignored then IgnoredStub(m.simpleName, m.params, IgnoredMessage)
    else
      var t := ThreadTypeOf(m.threadAnnotation);
      Forwarding(m.simpleName, m.params, t, InvokeStatement(m.simpleName, m.params, t))
  }

  /** An `@Ignore` method gets a stub that only throws; every other method
      gets a forwarder for the same method and parameters, on the annotated
      thread type or `CurrentThread` when unannotated, whose statement reads
      back as a call of that method with those parameters whenever the names
      are identifiers. */
  lemma GenerateMethodMeaning(m: Enclosed)
    ensures m.ignored <==> GenerateMethod(m).IgnoredStub?
    ensures m.ignored ==> GenerateMethod(m) == IgnoredStub(m.simpleName, m.params, IgnoredMessage)
    ensures !m.ignored ==>
      && GenerateMethod(m).name == m.simpleName
      && GenerateMethod(m).params == m.params
      && GenerateMethod(m).threadType == (if m.threadAnnotation.Some? then m.threadAnnotation.value else CurrentThread)
    ensures !m.ignored && IsIdentifier(m.simpleName) && AllIdentifiers(m.params) ==>
      ParseInvokeStatement(GenerateMethod(m).invokeStatement)
        == Some(InvokeParts(m.simpleName, m.params, GenerateMethod(m).threadType))
  {
    if !m.ignored && IsIdentifier(m.simpleName) && AllIdentifiers(m.params) {
      InvokeStatementRoundTrip(m.simpleName, m.params, ThreadTypeOf(m.threadAnnotation));
    }
  }

  function NonVoidMessage(contractName: string): string
  {
    "This method in " + contractName + " class doesn't return void type."
  }

  /** The error reported for one enclosed element. */
  function MethodDiagnostics(contractName: string, m: Enclosed): seq<string>
  {
    if m.kind == Method && !m.ignored && !m.returnsVoid then [NonVoidMessage(contractName)] else []
  }

  /** A non-void method is reported, and a forwarder is generated for it all
      the same; an ignored or void method is not reported. */
  lemma NonVoidReportedAndForwarded(contractName: string, m: Enclosed)
    requires m.kind == Method
    ensures MethodDiagnostics(contractName, m) != [] <==> !m.ignored && !m.returnsVoid
    ensures !m.ignored && !m.returnsVoid ==>
      MethodDiagnostics(contractName, m) == [NonVoidMessage(contractName)] && GenerateMethod(m).Forwarding?
  {
  }

  /** The enclosed elements that are methods, in order. */
  function MethodsOf(ms: seq<Enclosed>): (r: seq<Enclosed>)
    ensures forall k :: 0 <= k < |r| ==> r[k].kind == Method && r[k] in ms
    ensures forall k :: 0 <= k < |ms| && ms[k].kind == Method ==> ms[k] in r
    ensures |r| <= |ms|
  {
    if ms == [] then []
    else
      var init, last := ms[..|ms| - 1], ms[|ms| - 1];
      assert forall k :: 0 <= k < |init| ==> init[k] == ms[k];
      MethodsOf(init) + (if last.kind == Method then [last] else [])
  }

  /** Selecting the methods commutes with concatenation: the methods of a
      list are those of its first part followed by those of its second, so
      their order is the order of the enclosed elements. */
  lemma {:induction false} MethodsOfAppend(a: seq<Enclosed>, b: seq<Enclosed>)
    ensures MethodsOf(a + b) == MethodsOf(a) + MethodsOf(b)
    decreases |b|
  {
    if b == [] {
      assert a + b == a;
    } else {
      var init, last := b[..|b| - 1], b[|b| - 1];
      MethodsOfAppend(a, init);
      assert (a + b)[..|a + b| - 1] == a + init;
      AppendAssoc(MethodsOf(a), MethodsOf(init), if last.kind == Method then [last] else []);
    }
  }

  /** Each method occurs among the selected elements exactly as often as
      among the enclosed ones, and no other element occurs there. */
  lemma {:induction false} MethodsOfCounts(ms: seq<Enclosed>)
    ensures forall m :: multiset(MethodsOf(ms))[m] == (if m.kind == Method then multiset(ms)[m] else 0)
  {
    if ms != [] {
      var init, last := ms[..|ms| - 1], ms[|ms| - 1];
      MethodsOfCounts(init);
      assert ms == init + [last];
    }
  }

  /** The methods of the helper, as the loop over enclosed elements adds them. */
  function GeneratedMethods(ms: seq<Enclosed>): seq<GeneratedMethod>
  {
    if ms == [] then []
    else
      var last := ms[|ms| - 1];
      GeneratedMethods(ms[..|ms| - 1]) + (if last.kind == Method then [GenerateMethod(last)] else [])
  }

  /** The errors reported while implementing a contract, in order. */
  function HelperDiagnostics(contractName: string, ms: seq<Enclosed>): seq<string>
  {
    if ms == [] then []
    else HelperDiagnostics(contractName, ms[..|ms| - 1]) + MethodDiagnostics(contractName, ms[|ms| - 1])
  }

  /** Exactly one generated method per enclosed method, in the same order;
      enclosed elements that are not methods are skipped. */
  lemma {:induction false} OneGeneratedMethodPerMethod(ms: seq<Enclosed>)
    ensures |GeneratedMethods(ms)| == |MethodsOf(ms)|
    ensures forall k :: 0 <= k < |MethodsOf(ms)| ==>
      GeneratedMethods(ms)[k] == GenerateMethod(MethodsOf(ms)[k])
  {
    if ms != [] {
      OneGeneratedMethodPerMethod(ms[..|ms| - 1]);
    }
  }

  /** The helper class written for a contract. */
  function Helper(e: Element): GeneratedClass
  {
    GeneratedClass(
      GeneratedPackage,
      HelperClassName(e.qualifiedName),
      e.typeId,
      e.qualifiedName,
      [TagField, HelperField],
      ["tag", "eventsHelper"],
      [Assignment(TagField, "tag"), Assignment(HelperField, "eventsHelper")],
      GeneratedMethods(e.enclosed))
  }

  /** The generated constructor takes `(tag, eventsHelper)` and stores them,
      in that order, into the two fields `mTag` and `mEventsHelper`. */
  lemma HelperConstructorStoresArguments(e: Element)
    ensures Helper(e).fields == [TagField, HelperField]
    ensures |Helper(e).constructorParams| == 2 && |Helper(e).constructorBody| == 2
    ensures forall k :: 0 <= k < 2 ==>
      Helper(e).constructorBody[k] == Assignment(Helper(e).fields[k], Helper(e).constructorParams[k])
  {
  }

  // ---------------------------------------------------------------------------
  // One round

  function InvalidElementMessage(e: Element): string
  {
    "Element: " + e.qualifiedName + " is not a valid EventsListener."
  }

  /** The helper class written for one annotated element: one for a valid
      element, none for an invalid one. */
  function ElementFiles(e: Element): seq<GeneratedClass>
  {
    if IsValidEventsListenerElement(e) then [Helper(e)] else []
  }

  /** The errors reported for one annotated element: those of its methods
      for a valid element, a single one for an invalid element. */
  function ElementMessages(e: Element): seq<string>
  {
    if IsValidEventsListenerElement(e) then HelperDiagnostics(e.qualifiedName, e.enclosed)
    else [InvalidElementMessage(e)]
  }

  /** Every message reported while implementing a contract is the non-void
      message of that contract. */
  lemma {:induction false} DiagnosticsAreNonVoidMessages(contractName: string, ms: seq<Enclosed>)
    ensures forall s | s in HelperDiagnostics(contractName, ms) :: s == NonVoidMessage(contractName)
  {
    if ms != [] {
      DiagnosticsAreNonVoidMessages(contractName, ms[..|ms| - 1]);
    }
  }

  /** What validity decides in a round: an interface, or a class carrying
      `abstract`, gets its helper written and is never reported invalid; a
      concrete class, an enum, an annotation type or any other kind of element
      gets no helper and exactly the invalid-element message. */
  lemma ValidElementKinds(e: Element)
    ensures e.kind == Interface ==> IsValidEventsListenerElement(e)
    ensures e.kind == Class ==> (IsValidEventsListenerElement(e) <==> Abstract in e.modifiers)
    ensures e.kind != Interface && e.kind != Class ==> !IsValidEventsListenerElement(e)
    ensures IsValidEventsListenerElement(e) ==>
      ElementFiles(e) == [Helper(e)] && InvalidElementMessage(e) !in ElementMessages(e)
    ensures !IsValidEventsListenerElement(e) ==>
      ElementFiles(e) == [] && ElementMessages(e) == [InvalidElementMessage(e)]
  {
    if IsValidEventsListenerElement(e) {
      DiagnosticsAreNonVoidMessages(e.qualifiedName, e.enclosed);
      assert InvalidElementMessage(e)[0] == 'E' && NonVoidMessage(e.qualifiedName)[0] == 'T';
    }
  }

  /** The helper classes written for a round's elements, in order. */
  function ProcessedFiles(es: seq<Element>): seq<GeneratedClass>
  {
    if es == [] then []
    else
      var last := es[|es| - 1];
      ProcessedFiles(es[..|es| - 1]) + ElementFiles(last)
  }

  /** The error messages reported during a round, in order. */
  function ProcessedMessages(es: seq<Element>): seq<string>
  {
    if es == [] then []
    else
      var last := es[|es| - 1];
      ProcessedMessages(es[..|es| - 1]) + ElementMessages(last)
  }

  /** Every file a round writes is the helper of one of its valid elements,
      the `k`-th. */
  lemma {:induction false} ProcessedFilesAreHelpers(es: seq<Element>, f: GeneratedClass) returns (k: nat)
    requires f in ProcessedFiles(es)
    ensures k < |es| && IsValidEventsListenerElement(es[k]) && f == Helper(es[k])
  {
    var init := es[..|es| - 1];
    if f in ProcessedFiles(init) {
      k := ProcessedFilesAreHelpers(init, f);
      assert es[k] == init[k];
    } else {
      assert f in ElementFiles(es[|es| - 1]);
      k := |es| - 1;
    }
  }

  /** What processing one more element adds to a round's output. */
  lemma ProcessedStep(es: seq<Element>, i: nat)
    requires i < |es|
    ensures ProcessedFiles(es[..i + 1]) == ProcessedFiles(es[..i]) + ElementFiles(es[i])
    ensures ProcessedMessages(es[..i + 1]) == ProcessedMessages(es[..i]) + ElementMessages(es[i])
  {
    assert es[..i + 1][..i] == es[..i];
  }

  function CountInvalid(es: seq<Element>): nat
  {
    if es == [] then 0
    else CountInvalid(es[..|es| - 1]) + (if IsValidEventsListenerElement(es[|es| - 1]) then 0 else 1)
  }

  /** Every annotated element gets a helper or is reported invalid, never
      both and never neither. */
  lemma EveryElementAccountedFor(es: seq<Element>)
    ensures |ProcessedFiles(es)| + CountInvalid(es) == |es|
    ensures forall k :: 0 <= k < |es| && IsValidEventsListenerElement(es[k]) ==>
      Helper(es[k]) in ProcessedFiles(es)
    ensures forall k :: 0 <= k < |es| && !IsValidEventsListenerElement(es[k]) ==>
      InvalidElementMessage(es[k]) in ProcessedMessages(es)
  {
    ProcessedFilesCount(es);
    ValidElementsWritten(es);
    InvalidElementsReported(es);
  }

  lemma {:induction false} ProcessedFilesCount(es: seq<Element>)
    ensures |ProcessedFiles(es)| + CountInvalid(es) == |es|
  {
    if es != [] {
      ProcessedFilesCount(es[..|es| - 1]);
    }
  }

  lemma {:induction false} ValidElementsWritten(es: seq<Element>)
    ensures forall k :: 0 <= k < |es| && IsValidEventsListenerElement(es[k]) ==>
      Helper(es[k]) in ProcessedFiles(es)
  {
    if es != [] {
      var init, last := es[..|es| - 1], es[|es| - 1];
      ValidElementsWritten(init);
      forall k | 0 <= k < |es| && IsValidEventsListenerElement(es[k]) ensures Helper(es[k]) in ProcessedFiles(es) {
        if k < |init| {
          assert es[k] == init[k];
          assert Helper(init[k]) in ProcessedFiles(init);
        } else {
          assert ElementFiles(last) == [Helper(es[k])];
        }
      }
    }
  }

  lemma {:induction false} InvalidElementsReported(es: seq<Element>)
    ensures forall k :: 0 <= k < |es| && !IsValidEventsListenerElement(es[k]) ==>
      InvalidElementMessage(es[k]) in ProcessedMessages(es)
  {
    if es != [] {
      var init, last := es[..|es| - 1], es[|es| - 1];
      InvalidElementsReported(init);
      forall k | 0 <= k < |es| && !IsValidEventsListenerElement(es[k])
        ensures InvalidElementMessage(es[k]) in ProcessedMessages(es)
      {
        if k < |init| {
          assert es[k] == init[k];
          assert InvalidElementMessage(init[k]) in ProcessedMessages(init);
        } else {
          assert ElementMessages(last) == [InvalidElementMessage(es[k])];
        }
      }
    }
  }

  /** The processor: the helper classes it has written through the `Filer`
      and the error messages it has reported through the `Messager`. */
  class EventsAnnotationProcessor {
    var written: seq<GeneratedClass>
    var messages: seq<string>

    constructor ()
      ensures written == [] && messages == []
    {
      written := [];
      messages := [];
    }

    /** Handles one round: each valid element gets its helper, each invalid
        one an error; the round always claims the annotation. */
    method Process(elements: seq<Element>) returns (claimed: bool)
      modifies this
      ensures claimed
      ensures written == old(written) + ProcessedFiles(elements)
      ensures messages == old(messages) + ProcessedMessages(elements)
    {
      var i := 0;
      while i < |elements|
        invariant 0 <= i <= |elements|
        invariant written == old(written) + ProcessedFiles(elements[..i])
        invariant messages == old(messages) + ProcessedMessages(elements[..i])
      {
        ProcessedStep(elements, i);
        ProcessElement(elements[i]);
        AppendAssoc(old(written), ProcessedFiles(elements[..i]), ElementFiles(elements[i]));
        AppendAssoc(old(messages), ProcessedMessages(elements[..i]), ElementMessages(elements[i]));
        i := i + 1;
      }
      assert elements[..i] == elements;
      claimed := true;
    }

    /** The body of the round's loop for one element. */
    method ProcessElement(element: Element)
      modifies this
      ensures written == old(written) + ElementFiles(element)
      ensures messages == old(messages) + ElementMessages(element)
    {
      if IsValidEventsListenerElement(element) {
        ProcessEventsListener(element);
      } else {
        messages := messages + [InvalidElementMessage(element)];
      }
    }

    /** Implements one contract: walks its enclosed elements, adding a stub
        or a forwarder per method and reporting non-void methods, then writes
        the class. */
    method ProcessEventsListener(e: Element)
      modifies this
      ensures written == old(written) + [Helper(e)]
      ensures messages == old(messages) + HelperDiagnostics(e.qualifiedName, e.enclosed)
    {
      var listenerClassName := e.qualifiedName;
      var helperClassName := HelperPrefix + ReplaceChar(listenerClassName, '.', '_');
      var methods: seq<GeneratedMethod> := [];
      var i := 0;
      while i < |e.enclosed|
        invariant 0 <= i <= |e.enclosed|
        invariant methods == GeneratedMethods(e.enclosed[..i])
        invariant messages == old(messages) + HelperDiagnostics(listenerClassName, e.enclosed[..i])
        invariant written == old(written)
      {
        assert e.enclosed[..i + 1][..i] == e.enclosed[..i];
        var element := e.enclosed[i];
        AppendAssoc(old(messages), HelperDiagnostics(listenerClassName, e.enclosed[..i]),
          MethodDiagnostics(listenerClassName, element));
        if element.kind == Method {
          var generated := ImplementMethod(listenerClassName, element);
          methods := methods + [generated];
        }
        i := i + 1;
      }
      assert e.enclosed[..i] == e.enclosed;
      written := written + [GeneratedClass(
        GeneratedPackage, helperClassName, e.typeId, listenerClassName,
        [TagField, HelperField], ["tag", "eventsHelper"],
        [Assignment(TagField, "tag"), Assignment(HelperField, "eventsHelper")],
        methods)];
    }

    /** Implements one method of a contract: an `@Ignore` method gets the
        throwing stub; any other gets the forwarder, after a non-void method
        has been reported. */
    method ImplementMethod(listenerClassName: string, element: Enclosed) returns (generated: GeneratedMethod)
      requires element.kind == Method
      modifies this
      ensures generated == GenerateMethod(element)
      ensures written == old(written)
      ensures messages == old(messages) + MethodDiagnostics(listenerClassName, element)
    {
      if element.ignored {
        return IgnoredStub(element.simpleName, element.params, IgnoredMessage);
      }
      if !element.returnsVoid {
        messages := messages + [NonVoidMessage(listenerClassName)];
      }
      var threadType := CurrentThread;
      if element.threadAnnotation.Some? {
        threadType := element.threadAnnotation.value;
      }
      var invokeStatement := BuildInvokeStatement(element.simpleName, element.params, threadType);
      generated := Forwarding(element.simpleName, element.params, threadType, invokeStatement);
    }
  }
}
