/** The run-time half of dispatch: `EventsHelper`, which keeps the registered
    listeners and a cache of helper instances, hands out the generated helper
    for a contract and tag, answers the helper's listener lookups and
    schedules the calls it makes; the instances of generated helpers; and the
    lazily created process-wide singleton. */
module Core {
  import opened Base
  import opened Strings
  import opened EventsOnThread
  import opened AnnotationProcessor
  import opened Reflection
  import opened Dispatch

  /** `PACKAGE_NAME`: the package of `EventsHelper`, where generated helpers
      are looked up. */
  const PackageName: string := "moe.feng.common.eventshelper"

  const NotInterfaceMessage: string := "API declarations must be interfaces."
  const NotMarkedMessage: string := "Objects registering should be annotated with @EventsListener"
  const NotInitializedMessage: string := "EventsHelper instance hasn't been initialized."
  /** `requireNonNull(x)` without a message throws an exception whose message
      is `null`; it is written as the empty string. */
  const NoMessage: string := ""

  /** The binary name `of` passes to `Class.forName` for a contract. */
  function HelperLookupName(canonicalName: string): string
  {
    PackageName + ".Helper$$" + ReplaceChar(canonicalName, '.', '_')
  }

  /** The class the processor writes for a contract is, by package and simple
      name, exactly the class `of` loads for that contract. */
  lemma GeneratedHelperIsFound(e: Element)
    ensures Helper(e).packageName + "." + Helper(e).simpleName == HelperLookupName(e.qualifiedName)
  {
    var mangled := ReplaceChar(e.qualifiedName, '.', '_');
    assert Helper(e).simpleName == HelperPrefix + mangled;
    assert GeneratedPackage == PackageName;
    calc {
      Helper(e).packageName + "." + Helper(e).simpleName;
      PackageName + "." + (HelperPrefix + mangled);
      { AppendAssoc(PackageName + ".", HelperPrefix, mangled); }
      PackageName + "." + HelperPrefix + mangled;
      { assert PackageName + "." + HelperPrefix == PackageName + ".Helper$$"; }
      HelperLookupName(e.qualifiedName);
    }
  }

  /** `validateListenerInterface`: a contract class must be an interface, and
      then carry `@EventsListener`; the first check that fails decides the
      exception. */
  function ValidateListenerInterface(rt: Runtime, listenerClass: ClassId): (r: Outcome)
    ensures r.Pass? <==> rt.info(listenerClass).isInterface && rt.info(listenerClass).markedEventsListener
    ensures !rt.info(listenerClass).isInterface ==> r == Fail(IllegalArgumentException(NotInterfaceMessage))
    ensures rt.info(listenerClass).isInterface && !rt.info(listenerClass).markedEventsListener ==>
      r == Fail(IllegalArgumentException(NotMarkedMessage))
  {
    var info := rt.info(listenerClass);
    if !info.isInterface then Fail(IllegalArgumentException(NotInterfaceMessage))
    else if !info.markedEventsListener then Fail(IllegalArgumentException(NotMarkedMessage))
    else Pass
  }

  /** `validateListenerInstance`: walks the interfaces the listener's class
      declares, stopping at the first one marked `@EventsListener`; the
      listener passes exactly when there is one. */
  method ValidateListenerInstance(rt: Runtime, listener: ObjId) returns (r: Outcome)
    ensures r.Pass? <==> ImplementsEventsListener(rt, listener)
    ensures r.Fail? ==> r.error == IllegalArgumentException(NotAnnotatedMessage)
  {
    var interfaces := rt.info(rt.classOf(listener)).interfaces;
    var implemented := false;
    var k := 0;
    while k < |interfaces|
      invariant 0 <= k <= |interfaces|
      invariant !implemented
      invariant forall j :: 0 <= j < k ==> !rt.info(interfaces[j]).markedEventsListener
    {
      implemented := rt.info(interfaces[k]).markedEventsListener;
      if implemented {
        break;
      }
      k := k + 1;
    }
    if !implemented {
      return Fail(IllegalArgumentException(NotAnnotatedMessage));
    }
    r := Pass;
  }

  /** A batch of untagged registrations, one per element, in order. */
  function Untagged(batch: seq<Option<ObjId>>): (rs: seq<Registration>)
    ensures |rs| == |batch|
    ensures forall k :: 0 <= k < |rs| ==> rs[k] == Registration(batch[k], None)
  {
    seq(|batch|, k requires 0 <= k < |batch| => Registration(batch[k], None))
  }

  /** The part of an Android `Context` the helper uses: the main looper, to
      whose queue `MainThread` calls are posted. */
  datatype Context = Context(mainLooper: nat)

  class EventsHelper {
    /** What reflection reports about the running program. */
    const runtime: Runtime
    /** The looper of `mMainHandler`; `effects.mainQueue` is its queue. */
    const mainLooper: nat
    /** `mListeners` */
    var listeners: Registry
    /** `mHelperCache`, keyed by (canonical name of the contract, tag). */
    var helperCache: map<(string, Tag), Forwarder>
    /** What the calls handed to `scheduleRunnable` have done so far. */
    var effects: Effects

    constructor (runtime: Runtime, context: Context)
      ensures this.runtime == runtime && mainLooper == context.mainLooper
      ensures listeners == map[] && helperCache == map[] && effects == NoEffects
    {
      this.runtime := runtime;
      mainLooper := context.mainLooper;
      listeners := map[];
      helperCache := map[];
      effects := NoEffects;
    }

    /** Every cached helper instance belongs to this `EventsHelper`, carries
        the tag of its key and is the helper class loaded for its contract. */
    ghost predicate CacheConsistent()
      reads this
    {
      forall key | key in helperCache ::
        && helperCache[key].mEventsHelper == this
        && helperCache[key].mTag == key.1
        && HelperLookupName(key.0) in runtime.loadedHelpers
        && helperCache[key].helperClass == runtime.loadedHelpers[HelperLookupName(key.0)]
    }

    /** `registerListener(listener, tag)` */
    method RegisterListener(listener: Option<ObjId>, tag: Tag) returns (outcome: Outcome)
      modifies this`listeners
      ensures var step := RegisterStep(runtime, old(listeners), listener, tag);
        && (step.Success? ==> outcome == Pass && listeners == step.value)
        && (step.Failure? ==> outcome == Fail(step.error) && listeners == old(listeners))
    {
      if listener.None? {
        return Fail(NullPointerException(NullListenerMessage));
      }
      outcome := ValidateListenerInstance(runtime, listener.value);
      if outcome.Fail? {
        return;
      }
      listeners := listeners[listener.value := tag];
    }

    /** `registerListener(listener)`: registration without a tag. */
    method RegisterUntagged(listener: Option<ObjId>) returns (outcome: Outcome)
      modifies this`listeners
      ensures var step := RegisterStep(runtime, old(listeners), listener, None);
        && (step.Success? ==> outcome == Pass && listeners == step.value)
        && (step.Failure? ==> outcome == Fail(step.error) && listeners == old(listeners))
    {
      outcome := RegisterListener(listener, None);
    }

    /** `registerListeners(listeners...)`: a `null` array is refused; otherwise
        each element is registered untagged, in order, until one is refused,
        whose exception ends the call with the earlier ones registered. */
    method RegisterListeners(batch: Option<seq<Option<ObjId>>>) returns (outcome: Outcome)
      modifies this`listeners
      ensures batch.None? ==> outcome == Fail(NullPointerException(NullListenersMessage)) && listeners == old(listeners)
      ensures batch.Some? ==> (listeners, outcome) == RegisterEach(runtime, old(listeners), Untagged(batch.value))
    {
      if batch.None? {
        return Fail(NullPointerException(NullListenersMessage));
      }
      var xs := batch.value;
      ghost var rs := Untagged(xs);
      outcome := Pass;
      var i := 0;
      while i < |xs|
        invariant 0 <= i <= |xs|
        invariant outcome == Pass
        invariant RegisterEach(runtime, old(listeners), rs) == RegisterEach(runtime, listeners, rs[i..])
      {
        assert rs[i..][0] == Registration(xs[i], None) && rs[i..][1..] == rs[i + 1..];
        ghost var before := listeners;
        outcome := RegisterUntagged(xs[i]);
        if outcome.Fail? {
          assert RegisterEach(runtime, before, rs[i..]) == (before, outcome);
          return;
        }
        i := i + 1;
      }
    }

    /** `unregisterListener(listener)`: removes that listener's entry, if
        any; a `null` argument is refused. */
    method UnregisterListener(listener: Option<ObjId>) returns (outcome: Outcome)
      modifies this`listeners
      ensures listener.None? ==> outcome == Fail(NullPointerException(NullListenerMessage)) && listeners == old(listeners)
      ensures listener.Some? ==> outcome == Pass && listeners == old(listeners) - {listener.value}
    {
      if listener.None? {
        return Fail(NullPointerException(NullListenerMessage));
      }
      listeners := listeners - {listener.value};
      outcome := Pass;
    }

    /** `unregisterListeners(listeners...)`: removes every listener named; a
        `null` element removes nothing, a `null` array is refused. */
    method UnregisterListeners(batch: Option<seq<Option<ObjId>>>) returns (outcome: Outcome)
      modifies this`listeners
      ensures batch.None? ==> outcome == Fail(NullPointerException(NullListenersMessage)) && listeners == old(listeners)
      ensures batch.Some? ==> outcome == Pass && listeners == old(listeners) - ListenersIn(Untagged(batch.value))
    {
      if batch.None? {
        return Fail(NullPointerException(NullListenersMessage));
      }
      var xs := batch.value;
      ghost var rs := Untagged(xs);
      var i := 0;
      while i < |xs|
        invariant 0 <= i <= |xs|
        invariant listeners == old(listeners) - ListenersIn(rs[..i])
      {
        ListenersInStep(rs, i);
        if xs[i].Some? {
          listeners := listeners - {xs[i].value};
        }
        i := i + 1;
      }
      assert rs[..i] == rs;
      outcome := Pass;
    }

    /** `clearAllListeners()` */
    method ClearAllListeners()
      modifies this`listeners
      ensures listeners == map[]
    {
      listeners := map[];
    }

    /** `of(listenerClass, tag)`: see `OfSpec`. */
    method Of(listenerClass: ClassId, tag: Tag) returns (r: Result<Forwarder>)
      modifies this`helperCache
      ensures OfSpec(this, listenerClass, tag, r)
      ensures old(CacheConsistent()) ==> CacheConsistent()
    {
      var valid := ValidateListenerInterface(runtime, listenerClass);
      if valid.Fail? {
        return Failure(valid.error);
      }
      var canonicalName := runtime.info(listenerClass).canonicalName;
      if canonicalName.None? {
        return Failure(NullPointerException(NoMessage));
      }
      var key := (canonicalName.value, tag);
      if key in helperCache {
        return Success(helperCache[key]);
      }
      var helperClassName := PackageName + ".Helper$$" + ReplaceChar(canonicalName.value, '.', '_');
      if helperClassName !in runtime.loadedHelpers {
        return Failure(RuntimeException(ClassNotFoundException(helperClassName)));
      }
      var instance := new Forwarder(runtime.loadedHelpers[helperClassName], tag, this);
      helperCache := helperCache[key := instance];
      r := Success(instance);
    }

    /** `of(listenerClass)`: the helper for the contract without a tag. */
    method OfUntagged(listenerClass: ClassId) returns (r: Result<Forwarder>)
      modifies this`helperCache
      ensures OfSpec(this, listenerClass, None, r)
      ensures old(CacheConsistent()) ==> CacheConsistent()
    {
      r := Of(listenerClass, None);
    }

    /** `getListenersByClass(listenerClass, tag)`: walks the registry and
        collects each registered instance of the contract whose tag the
        lookup tag selects; the registry is only read. */
    method GetListenersByClass(listenerClass: ClassId, tag: Tag) returns (list: seq<ObjId>)
      ensures Enumerates(list, Matches(runtime, listeners, listenerClass, tag))
    {
      list := [];
      var entries := listeners.Keys;
      while entries != {}
        invariant entries <= listeners.Keys
        invariant forall o | o in list :: o in Matches(runtime, listeners, listenerClass, tag) && o !in entries
        invariant forall o | o in Matches(runtime, listeners, listenerClass, tag) && o !in entries :: o in list
        invariant forall i, j :: 0 <= i < j < |list| ==> list[i] != list[j]
        decreases entries
      {
        var o :| o in entries;
        entries := entries - {o};
        if IsInstance(runtime, listenerClass, o) {
          if tag.Some? && tag != listeners[o] {
            continue;
          }
          list := list + [o];
        }
      }
    }

    /** `getListenersByClass(listenerClass)`: every registered instance. */
    method GetAllListenersByClass(listenerClass: ClassId) returns (list: seq<ObjId>)
      ensures Enumerates(list, Matches(runtime, listeners, listenerClass, None))
    {
      list := GetListenersByClass(listenerClass, None);
    }

    /** `scheduleRunnable(runnable, threadType)` */
    method ScheduleRunnable(runnable: Call, threadType: int)
      modifies this`effects
      ensures effects == Schedule(old(effects), runnable, threadType)
    {
      if threadType == CurrentThread {
        effects := effects.(ran := effects.ran + [runnable]);
      } else if threadType == NewThread {
        effects := effects.(spawned := effects.spawned + multiset{runnable});
      } else if threadType == MainThread {
        effects := effects.(mainQueue := effects.mainQueue + [runnable]);
      }
    }
  }

  /** What `of(listenerClass, tag)` does: the contract is validated before
      anything else; a class without canonical name is refused; a helper
      cached for (canonical name, tag) is returned as it is; otherwise the
      generated helper class is loaded and a new instance of it, built from
      (tag, this helper), is cached under that key and returned, and a missing
      class is reported as a wrapped `ClassNotFoundException`. Only a new
      instance changes the cache. */
  twostate predicate OfSpec(h: EventsHelper, listenerClass: ClassId, tag: Tag, new r: Result<Forwarder>)
    reads h
  {
    var valid := ValidateListenerInterface(h.runtime, listenerClass);
    var canonicalName := h.runtime.info(listenerClass).canonicalName;
    if valid.Fail? then
      r == Failure(valid.error) && h.helperCache == old(h.helperCache)
    else if canonicalName.None? then
      r == Failure(NullPointerException(NoMessage)) && h.helperCache == old(h.helperCache)
    else if (canonicalName.value, tag) in old(h.helperCache) then
      r == Success(old(h.helperCache)[(canonicalName.value, tag)]) && h.helperCache == old(h.helperCache)
    else
      var helperName := HelperLookupName(canonicalName.value);
      if helperName !in h.runtime.loadedHelpers then
        r == Failure(RuntimeException(ClassNotFoundException(helperName))) && h.helperCache == old(h.helperCache)
      else
        && r.Success?
        && fresh(r.value)
        && r.value.helperClass == h.runtime.loadedHelpers[helperName]
        && r.value.mTag == tag
        && r.value.mEventsHelper == h
        && h.helperCache == old(h.helperCache)[(canonicalName.value, tag) := r.value]
  }

  /** Asking twice for the helper of the same contract and tag gives the
      identical answer: the same cached object, or the same exception. */
  method OfIsIdempotent(h: EventsHelper, listenerClass: ClassId, tag: Tag)
    returns (first: Result<Forwarder>, second: Result<Forwarder>)
    modifies h`helperCache
    ensures second == first
    ensures OfSpec(h, listenerClass, tag, first)
  {
    first := h.Of(listenerClass, tag);
    ghost var afterFirst := h.helperCache;
    second := h.Of(listenerClass, tag);
    assert h.helperCache == afterFirst;
  }

  /** The helper class the program loads for contract `c` was generated for
      it: the class found under the name `of` builds from `c`'s canonical
      name implements `c`, and was written for that qualified name. */
  predicate HelperMatchesContract(rt: Runtime, c: ClassId)
  {
    rt.info(c).canonicalName.Some? && HelperLookupName(rt.info(c).canonicalName.value) in rt.loadedHelpers ==>
      && rt.loadedHelpers[HelperLookupName(rt.info(c).canonicalName.value)].contract == c
      && rt.loadedHelpers[HelperLookupName(rt.info(c).canonicalName.value)].contractName
           == rt.info(c).canonicalName.value
  }

  /** When the class loaded for contract `c` is one a processing round wrote,
      found under its package and simple name, and no processed element
      other than `c`'s own (whose qualified name is `c`'s canonical name) has
      a name that mangles to the same helper name, the loaded helper is the
      one generated for `c`. */
  lemma ProcessedHelperMatchesContract(rt: Runtime, es: seq<Element>, c: ClassId)
    requires rt.info(c).canonicalName.Some?
    requires HelperLookupName(rt.info(c).canonicalName.value) in rt.loadedHelpers
    requires rt.loadedHelpers[HelperLookupName(rt.info(c).canonicalName.value)] in ProcessedFiles(es)
    requires HelperLookupName(rt.info(c).canonicalName.value)
      == rt.loadedHelpers[HelperLookupName(rt.info(c).canonicalName.value)].packageName + "."
         + rt.loadedHelpers[HelperLookupName(rt.info(c).canonicalName.value)].simpleName
    requires forall k ::
      (0 <= k < |es| && HelperLookupName(rt.info(c).canonicalName.value) == HelperLookupName(es[k].qualifiedName)
       ==> c == es[k].typeId && rt.info(c).canonicalName.value == es[k].qualifiedName)
    ensures HelperMatchesContract(rt, c)
  {
    var name := rt.info(c).canonicalName.value;
    var f := rt.loadedHelpers[HelperLookupName(name)];
    var k := WrittenHelperFound(es, f, HelperLookupName(name));
  }

  /** A written helper found under its package and simple name is the helper
      of a processed element, under the name `of` builds for that element. */
  lemma WrittenHelperFound(es: seq<Element>, f: GeneratedClass, n: string) returns (k: nat)
    requires f in ProcessedFiles(es) && n == f.packageName + "." + f.simpleName
    ensures k < |es| && f == Helper(es[k]) && n == HelperLookupName(es[k].qualifiedName)
  {
    k := ProcessedFilesAreHelpers(es, f);
    GeneratedHelperIsFound(es[k]);
  }

  /** `of(listenerClass, tag).m(args)`, where `m` is the helper's `k`-th
      method: when `of` succeeds, the helper it returns implements
      `listenerClass`, and calling a forwarding method schedules one call per
      listener registered for that contract and tag, in lookup order, on the
      method's thread type; a stub only throws. */
  method DispatchThroughOf(h: EventsHelper, listenerClass: ClassId, tag: Tag, k: nat, args: seq<Value>)
    returns (r: Result<Forwarder>, outcome: Outcome, ghost targets: seq<ObjId>)
    requires h.CacheConsistent() && HelperMatchesContract(h.runtime, listenerClass)
    modifies h`helperCache, h`effects
    ensures OfSpec(h, listenerClass, tag, r) && h.CacheConsistent()
    ensures r.Failure? ==> outcome == Fail(r.error) && h.effects == old(h.effects)
    ensures r.Success? ==>
      && r.value.helperClass.contract == listenerClass
      && r.value.mTag == tag
      && r.value.mEventsHelper == h
    ensures r.Success? && k < |r.value.helperClass.methods| && r.value.helperClass.methods[k].IgnoredStub? ==>
      && outcome == Fail(UnsupportedOperationException(r.value.helperClass.methods[k].message))
      && h.effects == old(h.effects)
    ensures r.Success? && k < |r.value.helperClass.methods| && r.value.helperClass.methods[k].Forwarding? ==>
      && outcome == Pass
      && Enumerates(targets, Matches(h.runtime, h.listeners, listenerClass, tag))
      && h.effects == ScheduleEach(old(h.effects),
           CallsTo(targets, r.value.helperClass.methods[k].name, args), r.value.helperClass.methods[k].threadType)
    ensures r.Success? && k >= |r.value.helperClass.methods| ==> outcome == Pass && h.effects == old(h.effects)
  {
    r := h.Of(listenerClass, tag);
    targets := [];
    if r.Failure? {
      outcome := Fail(r.error);
      return;
    }
    var helper := r.value;
    var name := h.runtime.info(listenerClass).canonicalName.value;
    assert h.helperCache[(name, tag)] == helper;
    assert helper.helperClass == h.runtime.loadedHelpers[HelperLookupName(name)];
    if k >= |helper.helperClass.methods| {
      outcome := Pass;
      return;
    }
    outcome, targets := helper.Invoke(k, args);
  }

  /** An instance of a generated helper class: the class, and the two fields
      its generated constructor stores. */
  class Forwarder {
    const helperClass: GeneratedClass
    const mTag: Tag
    const mEventsHelper: EventsHelper

    constructor (helperClass: GeneratedClass, tag: Tag, eventsHelper: EventsHelper)
      ensures this.helperClass == helperClass && mTag == tag && mEventsHelper == eventsHelper
    {
      this.helperClass := helperClass;
      mTag := tag;
      mEventsHelper := eventsHelper;
    }

    /** Calls the helper's `k`-th method with `args`. A stub only throws its
        `UnsupportedOperationException` and dispatches nothing. A forwarder
        runs the generated body: it looks up the listeners of the contract
        with this helper's tag and schedules one call of the same method with
        the same arguments per listener, in the order of the lookup, on the
        method's thread type. */
    method Invoke(k: nat, args: seq<Value>) returns (outcome: Outcome, ghost targets: seq<ObjId>)
      requires k < |helperClass.methods|
      modifies mEventsHelper`effects
      ensures helperClass.methods[k].IgnoredStub? ==>
        && outcome == Fail(UnsupportedOperationException(helperClass.methods[k].message))
        && mEventsHelper.effects == old(mEventsHelper.effects)
      ensures helperClass.methods[k].Forwarding? ==>
        && outcome == Pass
        && Enumerates(targets, Matches(mEventsHelper.runtime, mEventsHelper.listeners, helperClass.contract, mTag))
        && mEventsHelper.effects == ScheduleEach(old(mEventsHelper.effects),
             CallsTo(targets, helperClass.methods[k].name, args), helperClass.methods[k].threadType)
    {
      var m := helperClass.methods[k];
      if m.IgnoredStub? {
        return Fail(UnsupportedOperationException(m.message)), [];
      }
      var listeners := mEventsHelper.GetListenersByClass(helperClass.contract, mTag);
      targets := listeners;
      var i := 0;
      while i < |listeners|
        invariant 0 <= i <= |listeners|
        invariant mEventsHelper.effects
          == ScheduleEach(old(mEventsHelper.effects), CallsTo(listeners[..i], m.name, args), m.threadType)
      {
        assert CallsTo(listeners[..i + 1], m.name, args)[..i] == CallsTo(listeners[..i], m.name, args);
        mEventsHelper.ScheduleRunnable(Call(listeners[i], m.name, args), m.threadType);
        i := i + 1;
      }
      assert listeners[..i] == listeners;
      outcome := Pass;
    }
  }

  /** The static state of `EventsHelper`: the lazily created instance. */
  class Singleton {
    const runtime: Runtime
    /** `sInstance` */
    var instance: EventsHelper?

    constructor (runtime: Runtime)
      ensures this.runtime == runtime && instance == null
    {
      this.runtime := runtime;
      instance := null;
    }

    /** `getInstance(context)`: the first call with a context creates the
        instance; every later call returns that same instance, whatever
        context it is given. Without an instance a `null` context is refused. */
    method GetInstance(context: Option<Context>) returns (r: Result<EventsHelper>)
      modifies this`instance
      ensures old(instance) != null ==> r == Success(old(instance)) && instance == old(instance)
      ensures old(instance) == null && context.None? ==>
        r == Failure(NullPointerException(NoMessage)) && instance == null
      ensures old(instance) == null && context.Some? ==>
        && r.Success? && fresh(r.value) && instance == r.value
        && r.value.runtime == runtime && r.value.mainLooper == context.value.mainLooper
        && r.value.listeners == map[] && r.value.helperCache == map[] && r.value.effects == NoEffects
    {
      if instance == null {
        if context.None? {
          return Failure(NullPointerException(NoMessage));
        }
        instance := new EventsHelper(runtime, context.value);
      }
      r := Success(instance);
    }

    /** `getInstance()`: the existing instance; refused while there is none. */
    method GetExistingInstance() returns (r: Result<EventsHelper>)
      ensures instance == null ==> r == Failure(NullPointerException(NotInitializedMessage))
      ensures instance != null ==> r == Success(instance)
    {
      if instance == null {
        return Failure(NullPointerException(NotInitializedMessage));
      }
      r := Success(instance);
    }
  }
}
