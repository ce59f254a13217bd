# EventsHelper dispatch core in Dafny

EventsHelper is an Android publish/subscribe library. A listener contract is a
Java interface annotated `@EventsListener`. Listener objects are registered
with a process-wide `EventsHelper`, each with an optional string tag.
`of(Contract.class, tag)` returns a helper object that implements the contract.
Calling a method on that helper looks up every registered instance of the
contract whose tag matches. It then schedules one call of the same method per
listener: on the calling thread, on a new thread, or on the main thread's
queue, as the method's `@EventsOnThread` annotation says.

The helper classes are written at compile time by an annotation processor,
one per contract. This model covers both halves:

- `base.dfy` (`Base`): nullable values, results and outcomes, object and
  class identities, the Java exceptions thrown, and argument values.
- `strings.dfy` (`Strings`): the string operations used.
  - `String.replace` on characters.
  - The `StringBuilder` join-then-trim of parameter lists.
  - `Integer.toString`.
  - The parsers that read generated text back.
- `events_on_thread.dfy` (`EventsOnThread`): the thread-type constants, the
  `IntDef`, and the annotation default.
- `annotation_processor.dfy` (`AnnotationProcessor`): the processor.
  - Element validation and helper naming.
  - Per-method classification.
  - The dispatch statement, with a proof that it reads back as the call it
    was built from.
  - The generated class.
  - The processor as a class whose `Process` and `ProcessEventsListener`
    methods append to the written files and the reported messages.
- `reflection.dfy` (`Reflection`): what `EventsHelper` asks of Java
  reflection, as data. This covers class of an object, interface flag,
  marker annotation, declared interfaces, canonical name, `isInstance`, and
  the loadable helper classes.
- `dispatch.dfy` (`Dispatch`): the specification functions.
  - The registry, a map from listener to tag.
  - The tag-filtered lookup.
  - Single and bulk registration.
  - The scheduler's effects: calls run inline, the main-thread FIFO queue,
    and a bag of calls handed to new threads.
- `events_helper.dfy` (`Core`): the run-time objects.
  - Class `EventsHelper`. Its registry, helper cache and scheduler effects
    are fields updated in place.
  - Class `Forwarder`, an instance of a generated helper. `Invoke` runs a
    generated method body.
  - Class `Singleton`, the static `sInstance`.
- `extensions.dfy` (`Extensions`): the Kotlin extensions. These are `of<T>`,
  `registerListener(vararg Pair)`, and the `listeners` view with `+=`, `-=`
  and `clear()`.

## Model

| member | source | states |
|---|---|---|
| `EventsOnThread.ThreadTypes` | events-annotation/src/main/java/moe/feng/common/eventshelper/EventsOnThread.java:14-23 | `MAIN_THREAD`, `NEW_THREAD` and `CURRENT_THREAD` are three distinct values, and they are exactly the values the `ThreadType` IntDef admits |
| `EventsOnThread.DefaultValue` | events-annotation/src/main/java/moe/feng/common/eventshelper/EventsOnThread.java:18-19 | `value()` defaults to `CURRENT_THREAD`, which is a valid thread type |
| `EventsOnThread.ThreadTypeOf` | events-compiler/src/main/java/moe/feng/common/eventshelper/EventsAnnotationProcessor.java:138-142 | a method's thread type is its annotation's value when annotated and `CURRENT_THREAD` otherwise; a valid annotation gives a valid thread type |
| `Strings.ReplaceChar` | events-compiler/src/main/java/moe/feng/common/eventshelper/EventsAnnotationProcessor.java:94 | `replace(".", "_")` keeps the length and changes exactly the dots, each into an underscore |
| `Strings.ReplaceCharRemoves` | events-library-core/src/main/java/moe/feng/common/eventshelper/EventsHelper.java:203-204 | after the replacement no dot is left |
| `Strings.TrimmedJoinTerminated` | events-compiler/src/main/java/moe/feng/common/eventshelper/EventsAnnotationProcessor.java:149-154 | appending every parameter followed by `", "` and then cutting two characters leaves exactly the `", "`-joined list |
| `Strings.SplitJoin` | events-compiler/src/main/java/moe/feng/common/eventshelper/EventsAnnotationProcessor.java:148-154 | a `", "`-joined list of identifiers splits back into the same list |
| `Strings.IntDecimalRoundTrip` | events-compiler/src/main/java/moe/feng/common/eventshelper/EventsAnnotationProcessor.java:155 | the decimal text appended for any `int` thread type reads back as that value |
| `AnnotationProcessor.ValidElementKinds` | events-compiler/src/main/java/moe/feng/common/eventshelper/EventsAnnotationProcessor.java:46-50 | only an interface, or a class carrying `abstract`, is valid (a concrete class, an enum or an annotation type is not); a valid element gets exactly its helper written and is never reported invalid, an invalid one gets no helper and exactly the `is not a valid EventsListener.` message |
| `AnnotationProcessor.DiagnosticsAreNonVoidMessages` | events-compiler/src/main/java/moe/feng/common/eventshelper/EventsAnnotationProcessor.java:130-135 | the only message implementing a contract reports is that contract's non-void message |
| `AnnotationProcessor.HelperClassNameShape` | events-compiler/src/main/java/moe/feng/common/eventshelper/EventsAnnotationProcessor.java:94 | the helper name is `Helper$$` followed by the qualified name with dots turned into underscores, character by character, and it contains no dot |
| `AnnotationProcessor.MangledNamesCollide` | events-compiler/src/main/java/moe/feng/common/eventshelper/EventsAnnotationProcessor.java:94 | the mangling is not injective: `a.b_c` and `a_b.c` get the same helper name |
| `AnnotationProcessor.InvokeStatementRoundTrip` | events-compiler/src/main/java/moe/feng/common/eventshelper/EventsAnnotationProcessor.java:145-155 | the dispatch statement reads back as a call of the same method, with the same parameters in order, on the same thread type |
| `AnnotationProcessor.NoParameterStatement` | events-compiler/src/main/java/moe/feng/common/eventshelper/EventsAnnotationProcessor.java:149-155 | a method without parameters is called as `m()`, with no stray separator |
| `AnnotationProcessor.BuildInvokeStatement` | events-compiler/src/main/java/moe/feng/common/eventshelper/EventsAnnotationProcessor.java:145-155 | the `StringBuilder` loop with its final `setLength` builds exactly the statement whose round trip is proved |
| `AnnotationProcessor.GenerateMethodMeaning` | events-compiler/src/main/java/moe/feng/common/eventshelper/EventsAnnotationProcessor.java:113-163 | an `@Ignore` method, and only such a method, gets a stub that only throws; any other method gets a forwarder with the same name, parameters and thread type, whose statement reads back as that call whenever the names are identifiers |
| `AnnotationProcessor.NonVoidReportedAndForwarded` | events-compiler/src/main/java/moe/feng/common/eventshelper/EventsAnnotationProcessor.java:130-135 | a method is reported iff it is neither ignored nor void; a reported method still gets a forwarder |
| `AnnotationProcessor.MethodsOf` | events-compiler/src/main/java/moe/feng/common/eventshelper/EventsAnnotationProcessor.java:113-115 | every result is a `METHOD` taken from the input, and every `METHOD` of the input is in the result |
| `AnnotationProcessor.MethodsOfAppend` | events-compiler/src/main/java/moe/feng/common/eventshelper/EventsAnnotationProcessor.java:113-115 | the methods of a concatenation are the first part's methods followed by the second part's, so the generated methods follow the order of `getEnclosedElements()` |
| `AnnotationProcessor.MethodsOfCounts` | events-compiler/src/main/java/moe/feng/common/eventshelper/EventsAnnotationProcessor.java:113-115 | each method occurs in the selection exactly as often as among the enclosed elements, and nothing else occurs |
| `AnnotationProcessor.OneGeneratedMethodPerMethod` | events-compiler/src/main/java/moe/feng/common/eventshelper/EventsAnnotationProcessor.java:112-165 | the helper has exactly one generated method per enclosed method, in order; other elements are skipped |
| `AnnotationProcessor.HelperConstructorStoresArguments` | events-compiler/src/main/java/moe/feng/common/eventshelper/EventsAnnotationProcessor.java:103-110 | the constructor takes `(tag, eventsHelper)` and stores them, in order, into the two fields `mTag` and `mEventsHelper` |
| `AnnotationProcessor.ProcessedFilesAreHelpers` | events-compiler/src/main/java/moe/feng/common/eventshelper/EventsAnnotationProcessor.java:72-84 | every file a round writes is the helper of one of its valid elements |
| `AnnotationProcessor.EveryElementAccountedFor` | events-compiler/src/main/java/moe/feng/common/eventshelper/EventsAnnotationProcessor.java:72-84 | every annotated element gets a helper or yields its error message, never both and never neither |
| `AnnotationProcessor.EventsAnnotationProcessor.constructor` | events-compiler/src/main/java/moe/feng/common/eventshelper/EventsAnnotationProcessor.java:59-69 | a new processor has written no file and reported no message |
| `AnnotationProcessor.EventsAnnotationProcessor.Process` | events-compiler/src/main/java/moe/feng/common/eventshelper/EventsAnnotationProcessor.java:72-84 | a round appends, in element order, each valid element's helper and each element's messages; the round always returns `true` |
| `AnnotationProcessor.EventsAnnotationProcessor.ProcessElement` | events-compiler/src/main/java/moe/feng/common/eventshelper/EventsAnnotationProcessor.java:75-80 | a valid element gets its helper and method diagnostics; an invalid one gets only `Element: <name> is not a valid EventsListener.` |
| `AnnotationProcessor.EventsAnnotationProcessor.ProcessEventsListener` | events-compiler/src/main/java/moe/feng/common/eventshelper/EventsAnnotationProcessor.java:86-175 | implementing a contract writes exactly the helper class of that contract and reports exactly its non-void methods |
| `AnnotationProcessor.EventsAnnotationProcessor.ImplementMethod` | events-compiler/src/main/java/moe/feng/common/eventshelper/EventsAnnotationProcessor.java:117-163 | implementing one contract method writes nothing, generates exactly `GenerateMethod` of it (the stub or the forwarder whose meaning `GenerateMethodMeaning` states), and reports exactly its non-void message, if any |
| `Dispatch.RegisterStep` | events-library-core/src/main/java/moe/feng/common/eventshelper/EventsHelper.java:134-138 | a `null` listener is refused with an NPE, and a listener with no `@EventsListener` interface with an IAE; otherwise the listener gets exactly one entry, holding the new tag, and every other entry is unchanged |
| `Dispatch.RegisterThenLookup` | events-library-core/src/main/java/moe/feng/common/eventshelper/EventsHelper.java:222-233 | after registering `o` with tag `t`, a lookup yields `o` iff `o` is an instance of the class and the query is `null` or equals `t`; every other listener is yielded as before |
| `Dispatch.ReRegisterReplacesTag` | events-library-core/src/main/java/moe/feng/common/eventshelper/EventsHelper.java:137 | registering a listener twice leaves the registry as if only the second registration had happened |
| `Dispatch.UnregisterNeverMatches` | events-library-core/src/main/java/moe/feng/common/eventshelper/EventsHelper.java:145-148 | after unregistering `o`, no lookup yields `o`, and every other listener is yielded as before |
| `Dispatch.TaggedLookupNarrows` | events-library-core/src/main/java/moe/feng/common/eventshelper/EventsHelper.java:222-233 | the untagged lookup yields every registered instance; a tagged lookup yields exactly those registered with that tag, a subset of the untagged one |
| `Dispatch.TagFilteringScenario` | events-library-core/src/main/java/moe/feng/common/eventshelper/EventsHelper.java:222-233 | listeners tagged "A", "B" and untagged: `null` yields all three, "A" and "B" one each, any other tag none |
| `Dispatch.EnumerationSize` | events-library-core/src/main/java/moe/feng/common/eventshelper/EventsHelper.java:223-232 | the lookup's list is exactly as long as the set of matching listeners |
| `Dispatch.PutAllContents` | events-library-core/src/main/java/moe/feng/common/eventshelper/EventsHelper.java:120-125 | a batch adds every listener it names, each with the tag of its last registration, and leaves all other entries unchanged |
| `Dispatch.RegisterEachStopsAtFirstRefused` | events-library-core/src/main/java/moe/feng/common/eventshelper/EventsHelper.java:120-125 | a batch registers every listener before the first refused one and none after it; it fails with that one's exception, or passes when none is refused |
| `Dispatch.Schedule` | events-library-core/src/main/java/moe/feng/common/eventshelper/EventsHelper.java:235-245 | each of the three thread types hands the call to exactly one place: inline (run before return), a new thread, or the tail of the main queue; any other value schedules nothing |
| `Dispatch.ScheduleEachEffect` | events-library-core/src/main/java/moe/feng/common/eventshelper/EventsHelper.java:235-245 | a sequence of calls on one thread type either all runs inline in order, is queued on the main thread in order, or is all handed to new threads; an unknown type does nothing |
| `Dispatch.OneCallPerListener` | events-compiler/src/main/java/moe/feng/common/eventshelper/EventsAnnotationProcessor.java:158-162 | the forwarder loop calls the method once on each listener of the lookup, and on no other object |
| `Dispatch.DispatchReachesEachListenerOnce` | events-compiler/src/main/java/moe/feng/common/eventshelper/EventsAnnotationProcessor.java:157-163 | a dispatch on a valid thread type adds exactly one scheduled call per matching listener, and nothing else |
| `Core.GeneratedHelperIsFound` | events-library-core/src/main/java/moe/feng/common/eventshelper/EventsHelper.java:203-204 | the package and simple name of the class the processor writes give exactly the name `of` loads for the same contract |
| `Core.ValidateListenerInterface` | events-library-core/src/main/java/moe/feng/common/eventshelper/EventsHelper.java:74-83 | a contract class passes iff it is an interface carrying `@EventsListener`; a non-interface gets the interface message first |
| `Core.ValidateListenerInstance` | events-library-core/src/main/java/moe/feng/common/eventshelper/EventsHelper.java:85-98 | a listener passes iff some interface its class declares directly carries `@EventsListener`; otherwise an IAE is thrown |
| `Core.EventsHelper.constructor` | events-library-core/src/main/java/moe/feng/common/eventshelper/EventsHelper.java:100-103 | a new helper has no listener, no cached helper and no scheduled call, and records the context's main looper |
| `Core.EventsHelper.RegisterListener` | events-library-core/src/main/java/moe/feng/common/eventshelper/EventsHelper.java:134-138 | the registry becomes `RegisterStep`'s result, or stays unchanged with its exception |
| `Core.EventsHelper.RegisterUntagged` | events-library-core/src/main/java/moe/feng/common/eventshelper/EventsHelper.java:110-112 | registration with a `null` tag |
| `Core.EventsHelper.RegisterListeners` | events-library-core/src/main/java/moe/feng/common/eventshelper/EventsHelper.java:120-125 | a `null` array is refused; otherwise the elements are registered untagged, in order, up to the first refused one |
| `Core.EventsHelper.UnregisterListener` | events-library-core/src/main/java/moe/feng/common/eventshelper/EventsHelper.java:145-148 | removes only that listener's entry, and does nothing if it is absent; `null` is refused |
| `Core.EventsHelper.UnregisterListeners` | events-library-core/src/main/java/moe/feng/common/eventshelper/EventsHelper.java:155-160 | removes exactly the listeners named; a `null` array is refused |
| `Core.EventsHelper.ClearAllListeners` | events-library-core/src/main/java/moe/feng/common/eventshelper/EventsHelper.java:165-167 | empties the registry |
| `Core.EventsHelper.Of` | events-library-core/src/main/java/moe/feng/common/eventshelper/EventsHelper.java:191-216 | see below |
| `Core.EventsHelper.OfUntagged` | events-library-core/src/main/java/moe/feng/common/eventshelper/EventsHelper.java:177-179 | `of` with a `null` tag |
| `Core.EventsHelper.GetListenersByClass` | events-library-core/src/main/java/moe/feng/common/eventshelper/EventsHelper.java:222-233 | returns each matching listener exactly once, and the registry is only read |
| `Core.EventsHelper.GetAllListenersByClass` | events-library-core/src/main/java/moe/feng/common/eventshelper/EventsHelper.java:218-220 | the lookup with a `null` tag yields every registered instance of the class |
| `Core.EventsHelper.ScheduleRunnable` | events-library-core/src/main/java/moe/feng/common/eventshelper/EventsHelper.java:235-245 | the effects become `Schedule` of the old effects |
| `Core.OfIsIdempotent` | events-library-core/src/main/java/moe/feng/common/eventshelper/EventsHelper.java:197-213 | asking twice for the same contract and tag returns the identical object, or the same exception |
| `Core.ProcessedHelperMatchesContract` | events-library-core/src/main/java/moe/feng/common/eventshelper/EventsHelper.java:203-209 | when the class loaded for contract `C` is a helper a processing round wrote, found under its package and simple name, and no other processed element's name mangles like `C`'s, that helper was generated for `C` (the hypothesis of `Core.DispatchThroughOf`) |
| `Core.DispatchThroughOf` | events-library-core/src/main/java/moe/feng/common/eventshelper/EventsHelper.java:191-216 | when the helper class loaded for `C` was generated for `C`, the helper `of(C, tag)` returns implements `C`, carries `tag` and this `EventsHelper`; calling one of its forwarding methods schedules one call per listener registered for `C` and `tag`, in lookup order, on the method's thread type, and a stub only throws |
| `Core.Forwarder.constructor` | events-compiler/src/main/java/moe/feng/common/eventshelper/EventsAnnotationProcessor.java:105-110 | a helper instance stores its tag and its `EventsHelper` |
| `Core.Forwarder.Invoke` | events-compiler/src/main/java/moe/feng/common/eventshelper/EventsAnnotationProcessor.java:113-163 | see below |
| `Core.Singleton.constructor` | events-library-core/src/main/java/moe/feng/common/eventshelper/EventsHelper.java:32-33 | there is no instance at first |
| `Core.Singleton.GetInstance` | events-library-core/src/main/java/moe/feng/common/eventshelper/EventsHelper.java:49-56 | see below |
| `Core.Singleton.GetExistingInstance` | events-library-core/src/main/java/moe/feng/common/eventshelper/EventsHelper.java:65-72 | throws `NullPointerException("EventsHelper instance hasn't been initialized.")` while there is no instance, and returns the instance once there is one |
| `Extensions.OfReified` | events-library-ktx/src/main/kotlin/moe/feng/common/eventshelper/EventsHelperExtensions.kt:3-5 | satisfies exactly the contract of `of(T::class.java, tag)`, with the tag defaulting to `null` |
| `Extensions.RegisterListenerPairs` | events-library-ktx/src/main/kotlin/moe/feng/common/eventshelper/EventsHelperExtensions.kt:7-11 | registers each pair's listener with the pair's tag, in argument order, up to the first refused one |
| `Extensions.ItemRegistration` | events-library-ktx/src/main/kotlin/moe/feng/common/eventshelper/EventsHelperExtensions.kt:18-23 | a `Pair` element registers its first component with its `String` second as tag; a `null` first or a `null` or non-`String` second throws; any other element registers untagged |
| `Extensions.PlusAssignPlainListeners` | events-library-ktx/src/main/kotlin/moe/feng/common/eventshelper/EventsHelperExtensions.kt:17-25 | `+=` on a list of plain listeners does exactly what `registerListeners` does with them |
| `Extensions.ListenersCollection.constructor` | events-library-ktx/src/main/kotlin/moe/feng/common/eventshelper/EventsHelperExtensions.kt:15 | the view holds only its `EventsHelper` |
| `Extensions.ListenersCollection.PlusAssignList` | events-library-ktx/src/main/kotlin/moe/feng/common/eventshelper/EventsHelperExtensions.kt:17-25 | registers the list element by element, as `ItemRegistration` says, up to the first failure |
| `Extensions.ListenersCollection.PlusAssignPair` | events-library-ktx/src/main/kotlin/moe/feng/common/eventshelper/EventsHelperExtensions.kt:27-29 | registers the pair's listener with the pair's tag |
| `Extensions.ListenersCollection.PlusAssign` | events-library-ktx/src/main/kotlin/moe/feng/common/eventshelper/EventsHelperExtensions.kt:31-33 | registers the listener untagged |
| `Extensions.ListenersCollection.MinusAssignList` | events-library-ktx/src/main/kotlin/moe/feng/common/eventshelper/EventsHelperExtensions.kt:35-37 | removes exactly the listeners of the list from the shared registry |
| `Extensions.ListenersCollection.MinusAssign` | events-library-ktx/src/main/kotlin/moe/feng/common/eventshelper/EventsHelperExtensions.kt:39-41 | removes just that listener |
| `Extensions.ListenersCollection.Clear` | events-library-ktx/src/main/kotlin/moe/feng/common/eventshelper/EventsHelperExtensions.kt:43-45 | empties the shared registry |
| `Extensions.Listeners` | events-library-ktx/src/main/kotlin/moe/feng/common/eventshelper/EventsHelperExtensions.kt:13 | each access gives a new view on the same helper |

The three rows marked "see below" state the following.

- `Core.EventsHelper.Of` (stated by the two-state predicate `OfSpec`):
  - The contract is validated before the cache is touched.
  - A class without canonical name throws an NPE.
  - A cached (canonical name, tag) returns the cached object itself.
  - Otherwise `PackageName + ".Helper$$" + name.replace('.', '_')` is loaded.
    A new instance of it, built from (tag, this helper), is the one new cache
    entry.
  - A missing class throws `RuntimeException(ClassNotFoundException)` and
    leaves the cache unchanged.
  - Every cached instance stays bound to this helper, to its key's tag and to
    its key's loaded class.
- `Core.Forwarder.Invoke`:
  - A stub throws its `UnsupportedOperationException` and schedules nothing.
  - A forwarder looks up its contract with its own tag. It then schedules, on
    the method's thread type, one call of the same method with the same
    arguments per listener, in lookup order.
- `Core.Singleton.GetInstance`:
  - The first call with a context creates a fresh, empty instance.
  - Every later call returns that same instance, whatever context is passed.
  - Without an instance, a `null` context throws.

## Behaviour worth knowing

These points follow from the code. A reader might expect otherwise.

- **Registration validity.** Registration checks more than that the listener
  is non-null. Its class must directly declare an `@EventsListener`
  interface, or an `IllegalArgumentException` is thrown.
- **Non-void methods.** A contract method that returns a value is refused
  at build time, and only there.
  - The processor reports it as an ERROR through the `Messager`, which fails
    the compilation.
  - The processor still generates a forwarder, which has no `return`
    statement.
  - At run time, `of` checks nothing about return types.
- **Kotlin pairs.** `helper.registerListener(a to "t")` with a single pair
  calls the member `registerListener(Object)`, because a member wins over an
  extension. That member refuses the `Pair` with an
  `IllegalArgumentException`. The vararg extension that
  `Extensions.RegisterListenerPairs` models is reached only with no pair or
  with two or more.
- **Main thread.** `MAIN_THREAD` dispatch cannot fail for lack of
  initialisation, because the main handler is set in the constructor. The
  message at `EventsHelper.java:241-242` names an `EventsHelper#init(Context)`
  method that does not exist.
- **Singleton.** `getInstance(context)` returns the existing instance when
  there is one; nothing fails.
- **Cache key.** The helper cache is keyed by the contract's canonical name
  and the tag, not by the class object.
- **Registry equality.** The registry is a `HashMap`, so two listeners that
  are `equals` share one entry, keyed by the first one registered. This
  model compares listeners by identity (see "Left out").
- **Locking.** The registry and the cache are not locked. Only the two
  `getInstance` methods hold `sLock`.

## Left out

- `Context`, `Looper`, `Handler` and `Thread` are not modelled.
  - Scheduling is recorded in `Effects`. Calls run inline are appended to
    `ran`, calls posted to the main thread to `mainQueue`, and calls given to
    new threads to the multiset `spawned`.
  - A context contributes only the identity of its main looper.
  - The `requireNonNull(mMainHandler)` inside `scheduleRunnable` cannot fail
    and is not modelled.
- Concurrency is not modelled: the `sLock` monitor, unsynchronized access to
  the maps, and listeners running on other threads at the same time. The
  model is sequential.
- Listener bodies are not executed. A call is recorded, not run. So the model
  does not cover an exception thrown by a listener, which on the calling
  thread aborts delivery to later listeners. It also does not cover a
  listener that changes the registry during a dispatch.
- `HashMap` iteration order is not modelled. `GetListenersByClass` walks the
  keys in an unspecified order, so its result is stated as an enumeration of
  a set.
- The dynamic-proxy path is not modelled: `proxyOf` and
  `ListenerInvocationHandler`. It is unreachable because `sUseProxyInterface`
  is the constant `false`.
- Reflection is replaced by the `Runtime` datatype.
  - `getDeclaredConstructor` and `newInstance` are assumed to succeed on a
    generated helper, which always declares the `(String, EventsHelper)`
    constructor.
  - A missing class is the only wrapped failure modelled.
  - A `Class` argument is assumed non-null.
- The processor's JavaPoet builders, `Filer` and `Messager` are replaced by
  the structured `GeneratedClass` and a list of error messages.
  - The `@RestrictTo` annotation and the `FINAL` modifier of the generated
    class are not modelled.
  - The swallowed `IOException` of `writeTo` is not modelled.
  - The log of `EventsHelper.TAG` is not modelled.
- Registry keys are compared by identity.
  - Listeners whose class overrides `equals`/`hashCode` are not covered.
  - In Java, registering `b` when an equal `a` is already registered retags
    `a`'s entry. `unregisterListener(b)` would then remove `a`. The model
    instead keeps a separate entry for `b`.
- `Core.DispatchThroughOf` reaches a helper method by its index. An index
  past the helper's methods calls nothing; Java's compiler rules that case
  out.
- `Element.toString()` is modelled by the element's qualified name.
- `AnnotationProcessor.InvokeStatementRoundTrip`: does not cover method or
  parameter names containing `$` or non-ASCII letters.
  - The round trip is stated for non-empty names of ASCII letters, digits
    and `_`.
  - The statement is passed to JavaPoet's `addStatement` as a format
    string. There, `$$` becomes `$`, and `$L`, `$N` and the like expect
    arguments the processor does not supply. So a `$` in a name is not
    emitted as written.
  - The same restriction applies to `Strings.SplitJoin` and to the
    statement clause of `AnnotationProcessor.GenerateMethodMeaning`. Its
    other clauses hold for every name.
- `Core.Forwarder.Invoke`: assumes the generated method body's names do not
  clash with the contract method's own parameter names. The generated method
  keeps the contract's parameter names.
  - A parameter named `mTag` shadows the field. If the parameter's type is
    `String`, the generated code looks listeners up with the argument's
    value as the tag, while `Invoke` uses the helper's own tag. With any
    other type the generated helper does not compile.
    `Core.DispatchThroughOf` has the same gap.
  - A parameter named `mEventsHelper`, `listeners` or `listener` makes the
    generated helper fail to compile. The first shadows the field, so the
    body calls a method its type lacks. The other two clash with the body's
    local variable and loop variable.
- `AnnotationProcessor.EventsAnnotationProcessor.ProcessEventsListener`: does
  not model a contract method that is `static`, `private` or `final`.
  - `MethodSpec.overriding` throws `IllegalArgumentException` for such a
    method, on the stub path and on the forwarding path alike. This happens
    for a Java 8 `static` interface method, for example.
  - In Java the exception leaves `process`. No helper is written for that
    contract, later elements of the round are not processed, and `true` is
    not returned.
  - `Enclosed` records no method modifiers, so the model always writes the
    helper.
- `AnnotationProcessor.EventsAnnotationProcessor.ImplementMethod`: promises
  `GenerateMethod(element)` for every method. For a `static`, `private` or
  `final` method, Java's `MethodSpec.overriding` throws instead, as above.
- `AnnotationProcessor.EventsAnnotationProcessor.ProcessElement`: a valid
  element whose contract has a `static`, `private` or `final` method aborts
  the round in Java, as above. The model writes its helper.
- `AnnotationProcessor.EventsAnnotationProcessor.Process`: such an element
  ends the round in Java with an exception, without `true` and without the
  later elements. The model processes every element and returns `true`.
- Some exception messages are not the library's own text.
  - `requireNonNull` without a message gives a `null` message, written as
    the empty string.
  - The Kotlin `!!` and `as String` failures are given fixed messages.
- `Core.Forwarder.Invoke` names the helper method it runs by its index among
  the generated methods, not by a Java `Method`.
- Name mangling is not injective (`AnnotationProcessor.MangledNamesCollide`).
  The model does not prove collision-freedom. `Core.DispatchThroughOf`
  therefore requires `Core.HelperMatchesContract`: the helper loaded for the
  contract was generated for it. `Core.ProcessedHelperMatchesContract`
  derives this for a helper written by the processor when no other processed
  contract mangles to the same name.
- The sample application, the test contracts, and the behaviour-free
  `EventsListenerProvider` interface are not part of this model.
