/** The specification `EventsHelper` is proved against: the listener registry
    (`mListeners`, one tag per listener object) with the lookup that a
    generated helper performs, and the scheduler that routes each call to the
    calling thread, a new thread or the main thread's queue. */
module Dispatch {
  import opened Base
  import opened EventsOnThread
  import opened Reflection

  // ---------------------------------------------------------------------------
  // The registry

  /** `mListeners`: every registered listener with its (nullable) tag. */
  type Registry = map<ObjId, Tag>

  const NullListenerMessage: string := "Listener argument cannot be null."
  const NullListenersMessage: string := "Listeners argument cannot be null."
  const NotAnnotatedMessage: string := "This listener isn't annotated with EventsListener."

  /** A lookup tag selects a listener: a `null` lookup tag selects every
      listener, any other tag only the listeners registered with an equal tag
      (so a listener registered without a tag is only selected by `null`). */
  predicate TagMatches(query: Tag, stored: Tag)
  {
    query.None? || query == stored
  }

  /** The listeners a lookup of `listenerClass` and `tag` yields. */
  function Matches(rt: Runtime, reg: Registry, listenerClass: ClassId, tag: Tag): set<ObjId>
  {
    set o | o in reg && IsInstance(rt, listenerClass, o) && TagMatches(tag, reg[o])
  }

  /** `registerListener(listener, tag)` accepts the listener. */
  predicate Accepted(rt: Runtime, listener: Option<ObjId>)
  {
    listener.Some? && ImplementsEventsListener(rt, listener.value)
  }

  /** One `registerListener(listener, tag)`: a `null` listener is refused with
      a `NullPointerException`, one whose class declares no `@EventsListener`
      interface with an `IllegalArgumentException`; otherwise the listener
      gets exactly one entry, holding the new tag, and no other entry moves. */
  function RegisterStep(rt: Runtime, reg: Registry, listener: Option<ObjId>, tag: Tag): (r: Result<Registry>)
    ensures r.Success? <==> Accepted(rt, listener)
    ensures listener.None? ==> r == Failure(NullPointerException(NullListenerMessage))
    ensures listener.Some? && !Accepted(rt, listener) ==> r == Failure(IllegalArgumentException(NotAnnotatedMessage))
    ensures r.Success? ==>
      && r.value.Keys == reg.Keys + {listener.value}
      && r.value[listener.value] == tag
      && forall o :: o in reg && o != listener.value ==> r.value[o] == reg[o]
  {
    match listener
    case None => Failure(NullPointerException(NullListenerMessage))
    case Some(o) =>
      if !ImplementsEventsListener(rt, o) then Failure(IllegalArgumentException(NotAnnotatedMessage))
      else Success(reg[o := tag])
  }

  /** After a successful registration the lookup of any class and tag yields
      the new listener exactly when it is an instance of that class and the
      lookup tag selects the tag it was registered with; every other listener
      is yielded as before. */
  lemma RegisterThenLookup(rt: Runtime, reg: Registry, o: ObjId, tag: Tag, listenerClass: ClassId, query: Tag)
    requires Accepted(rt, Some(o))
    ensures RegisterStep(rt, reg, Some(o), tag).Success?
    ensures var after := RegisterStep(rt, reg, Some(o), tag).value;
      && (o in Matches(rt, after, listenerClass, query)
          <==> IsInstance(rt, listenerClass, o) && (query.None? || query == tag))
      && Matches(rt, after, listenerClass, query) - {o} == Matches(rt, reg, listenerClass, query) - {o}
  {
    var after := RegisterStep(rt, reg, Some(o), tag).value;
    assert after == reg[o := tag];
  }

  /** Registering a listener again replaces its tag: the registry is the same
      as if only the second registration had happened. */
  lemma ReRegisterReplacesTag(rt: Runtime, reg: Registry, o: ObjId, first: Tag, second: Tag)
    requires Accepted(rt, Some(o))
    ensures RegisterStep(rt, reg, Some(o), first).Success?
    ensures RegisterStep(rt, RegisterStep(rt, reg, Some(o), first).value, Some(o), second)
         == RegisterStep(rt, reg, Some(o), second)
  {
    assert reg[o := first][o := second] == reg[o := second];
  }

  /** After unregistering a listener no lookup yields it, and every other
      listener is yielded as before. */
  lemma UnregisterNeverMatches(rt: Runtime, reg: Registry, o: ObjId, listenerClass: ClassId, query: Tag)
    ensures Matches(rt, reg - {o}, listenerClass, query) == Matches(rt, reg, listenerClass, query) - {o}
  {
  }

  /** A tagged lookup yields a subset of the untagged lookup, and the untagged
      lookup yields every registered instance of the class whatever its tag. */
  lemma TaggedLookupNarrows(rt: Runtime, reg: Registry, listenerClass: ClassId, tag: string)
    ensures Matches(rt, reg, listenerClass, Some(tag)) <= Matches(rt, reg, listenerClass, None)
    ensures forall o :: o in Matches(rt, reg, listenerClass, None) <==> o in reg && IsInstance(rt, listenerClass, o)
    ensures forall o :: (o in Matches(rt, reg, listenerClass, Some(tag))
      <==> o in reg && IsInstance(rt, listenerClass, o) && reg[o] == Some(tag))
  {
  }

  /** Three listeners of one contract, tagged "A", "B" and untagged: the
      untagged lookup yields all three, the lookup of "A" only the first, that
      of "B" only the second, and any other tag none of them. */
  lemma TagFilteringScenario(rt: Runtime, listenerClass: ClassId, l1: ObjId, l2: ObjId, l3: ObjId, other: string)
    requires l1 != l2 && l2 != l3 && l1 != l3
    requires IsInstance(rt, listenerClass, l1) && IsInstance(rt, listenerClass, l2) && IsInstance(rt, listenerClass, l3)
    requires other != "A" && other != "B"
    ensures var reg := map[l1 := Some("A"), l2 := Some("B"), l3 := None];
      && Matches(rt, reg, listenerClass, None) == {l1, l2, l3}
      && Matches(rt, reg, listenerClass, Some("A")) == {l1}
      && Matches(rt, reg, listenerClass, Some("B")) == {l2}
      && Matches(rt, reg, listenerClass, Some(other)) == {}
  {
    var reg := map[l1 := Some("A"), l2 := Some("B"), l3 := None];
    assert reg.Keys == {l1, l2, l3};
    assert Some("A") != Some("B");
  }

  /** `xs` lists the elements of `s`, each exactly once, in some order (the
      order of a `HashMap` walk, which nothing here depends on). */
  predicate Enumerates(xs: seq<ObjId>, s: set<ObjId>)
  {
    && (forall o | o in xs :: o in s)
    && (forall o | o in s :: o in xs)
    && (forall i, j :: 0 <= i < j < |xs| ==> xs[i] != xs[j])
  }

  /** An enumeration is exactly as long as the set it lists. */
  lemma {:induction false} EnumerationSize(xs: seq<ObjId>, s: set<ObjId>)
    requires Enumerates(xs, s)
    ensures |xs| == |s|
  {
    if xs == [] {
      assert s == {};
    } else {
      EnumerationTail(xs, s);
      EnumerationSize(xs[1..], s - {xs[0]});
    }
  }

  // ---------------------------------------------------------------------------
  // Registering in bulk

  /** One registration of a batch: a listener (possibly `null`) and its tag. */
  datatype Registration = Registration(listener: Option<ObjId>, tag: Tag)

  /** The listeners a batch names, `null`s left out. */
  function ListenersIn(rs: seq<Registration>): set<ObjId>
  {
    set k | 0 <= k < |rs| && rs[k].listener.Some? :: rs[k].listener.value
  }

  /** Registrations performed one after another, stopping at the first one
      refused: the registry as it stands then, and how the batch ended. */
  function RegisterEach(rt: Runtime, reg: Registry, rs: seq<Registration>): (Registry, Outcome)
    decreases rs
  {
    if rs == [] then (reg, Pass)
    else match RegisterStep(rt, reg, rs[0].listener, rs[0].tag)
      case Failure(e) => (reg, Fail(e))
      case Success(next) => RegisterEach(rt, next, rs[1..])
  }

  /** The position of the first registration refused (`|rs|` when none is). */
  function FirstRefused(rt: Runtime, rs: seq<Registration>): (k: nat)
    ensures k <= |rs|
    ensures forall i :: 0 <= i < k ==> Accepted(rt, rs[i].listener)
    ensures k < |rs| ==> !Accepted(rt, rs[k].listener)
  {
    if rs == [] || !Accepted(rt, rs[0].listener) then 0 else 1 + FirstRefused(rt, rs[1..])
  }

  /** Stores every non-null listener of a batch with its tag, in order. */
  function PutAll(reg: Registry, rs: seq<Registration>): Registry
    decreases rs
  {
    if rs == [] then reg
    else
      var next := if rs[0].listener.Some? then reg[rs[0].listener.value := rs[0].tag] else reg;
      PutAll(next, rs[1..])
  }

  /** The tag of the last registration of `o` in a batch. */
  function LastTag(rs: seq<Registration>, o: ObjId): Tag
    requires o in ListenersIn(rs)
  {
    assert rs != [];
    ListenersInCons(rs);
    if o in ListenersIn(rs[1..]) then LastTag(rs[1..], o) else rs[0].tag
  }

  lemma ListenersInCons(rs: seq<Registration>)
    requires rs != []
    ensures ListenersIn(rs) == (if rs[0].listener.Some? then {rs[0].listener.value} else {}) + ListenersIn(rs[1..])
  {
    forall o | o in ListenersIn(rs[1..]) ensures o in ListenersIn(rs) {
      var k :| 0 <= k < |rs[1..]| && rs[1..][k].listener == Some(o);
      assert rs[k + 1].listener == Some(o);
    }
    forall o | o in ListenersIn(rs) && (rs[0].listener.None? || o != rs[0].listener.value)
      ensures o in ListenersIn(rs[1..])
    {
      var k :| 0 <= k < |rs| && rs[k].listener == Some(o);
      assert rs[1..][k - 1].listener == Some(o);
    }
  }

  /** One more registration of a batch adds its listener, if any, to the
      listeners the batch names. */
  lemma ListenersInStep(rs: seq<Registration>, i: nat)
    requires i < |rs|
    ensures ListenersIn(rs[..i + 1])
      == ListenersIn(rs[..i]) + (if rs[i].listener.Some? then {rs[i].listener.value} else {})
  {
    var before, after := rs[..i], rs[..i + 1];
    forall o | o in ListenersIn(before) ensures o in ListenersIn(after) {
      var k :| 0 <= k < |before| && before[k].listener == Some(o);
      assert after[k].listener == Some(o);
    }
    forall o | o in ListenersIn(after) && (rs[i].listener.None? || o != rs[i].listener.value)
      ensures o in ListenersIn(before)
    {
      var k :| 0 <= k < |after| && after[k].listener == Some(o);
      assert before[k].listener == Some(o);
    }
    if rs[i].listener.Some? {
      assert after[i] == rs[i];
    }
  }

  /** A batch adds every listener it names, each with the tag of its last
      registration in the batch, and leaves every other entry as it was. */
  lemma {:induction false} PutAllContents(reg: Registry, rs: seq<Registration>)
    ensures PutAll(reg, rs).Keys == reg.Keys + ListenersIn(rs)
    ensures forall o :: o in ListenersIn(rs) ==> PutAll(reg, rs)[o] == LastTag(rs, o)
    ensures forall o :: o in reg && o !in ListenersIn(rs) ==> PutAll(reg, rs)[o] == reg[o]
    decreases rs
  {
    if rs != [] {
      var next := if rs[0].listener.Some? then reg[rs[0].listener.value := rs[0].tag] else reg;
      PutAllContents(next, rs[1..]);
      ListenersInCons(rs);
    }
  }

  /** A batch registers every listener before the first refused one, with
      the registrations' tags, and nothing after it; it fails with the
      refused registration's exception, and succeeds when none is refused. */
  lemma {:induction false} RegisterEachStopsAtFirstRefused(rt: Runtime, reg: Registry, rs: seq<Registration>)
    ensures var k := FirstRefused(rt, rs);
      && RegisterEach(rt, reg, rs).0 == PutAll(reg, rs[..k])
      && (k == |rs| ==> RegisterEach(rt, reg, rs).1 == Pass)
      && (k < |rs| ==> RegisterEach(rt, reg, rs).1 == Fail(RegisterStep(rt, reg, rs[k].listener, rs[k].tag).error))
    decreases rs
  {
    if rs != [] && Accepted(rt, rs[0].listener) {
      var next := reg[rs[0].listener.value := rs[0].tag];
      RegisterEachStopsAtFirstRefused(rt, next, rs[1..]);
      var k := FirstRefused(rt, rs);
      assert rs[..k][1..] == rs[1..][..k - 1];
    }
  }

  // ---------------------------------------------------------------------------
  // The scheduler

  /** One call of a contract method on one listener. */
  datatype Call = Call(listener: ObjId, methodName: string, args: seq<Value>)

  /** What scheduled calls have done so far: the calls already run on the
      calling thread, in order; the calls posted to the main thread's queue,
      in order; and the calls handed to newly started threads, which run in no
      particular order. */
  datatype Effects = Effects(ran: seq<Call>, mainQueue: seq<Call>, spawned: multiset<Call>)

  const NoEffects: Effects := Effects([], [], multiset{})

  /** Every call the scheduler has been handed so far. */
  function Scheduled(e: Effects): multiset<Call>
  {
    multiset(e.ran) + multiset(e.mainQueue) + e.spawned
  }

  /** `scheduleRunnable(call, threadType)`: each of the three thread types
      hands the call to exactly one place (run it now, start a thread, post
      it to the main thread); any other value silently drops the call. */
  function Schedule(e: Effects, call: Call, threadType: int): (r: Effects)
    ensures IsThreadType(threadType) ==> Scheduled(r) == Scheduled(e) + multiset{call}
    ensures !IsThreadType(threadType) ==> r == e
    ensures threadType == CurrentThread <==> r.ran != e.ran
    ensures threadType == MainThread <==> r.mainQueue != e.mainQueue
    ensures threadType == NewThread <==> r.spawned != e.spawned
    ensures r.ran != e.ran ==> r.ran == e.ran + [call]
    ensures r.mainQueue != e.mainQueue ==> r.mainQueue == e.mainQueue + [call]
  {
    if threadType == CurrentThread then e.(ran := e.ran + [call])
    else if threadType == NewThread then e.(spawned := e.spawned + multiset{call})
    else if threadType == MainThread then e.(mainQueue := e.mainQueue + [call])
    else e
  }

  /** The same method called with the same arguments on each listener, in
      the listeners' order. */
  function CallsTo(listeners: seq<ObjId>, methodName: string, args: seq<Value>): (calls: seq<Call>)
    ensures |calls| == |listeners|
    ensures forall k :: 0 <= k < |calls| ==> calls[k] == Call(listeners[k], methodName, args)
  {
    seq(|listeners|, k requires 0 <= k < |listeners| => Call(listeners[k], methodName, args))
  }

  /** Calling a method on an enumeration of a set of listeners calls it on
      each listener of the set exactly once and on no other object. */
  lemma {:induction false} OneCallPerListener(xs: seq<ObjId>, s: set<ObjId>, methodName: string, args: seq<Value>)
    requires Enumerates(xs, s)
    ensures forall o :: multiset(CallsTo(xs, methodName, args))[Call(o, methodName, args)] == (if o in s then 1 else 0)
  {
    if xs == [] {
      assert s == {};
    } else {
      var rest := s - {xs[0]};
      EnumerationTail(xs, s);
      OneCallPerListener(xs[1..], rest, methodName, args);
      var calls, tail := CallsTo(xs, methodName, args), CallsTo(xs[1..], methodName, args);
      assert calls == [Call(xs[0], methodName, args)] + tail;
      assert multiset(calls) == multiset{Call(xs[0], methodName, args)} + multiset(tail);
    }
  }

  /** Dropping the first element of an enumeration enumerates the rest. */
  lemma EnumerationTail(xs: seq<ObjId>, s: set<ObjId>)
    requires Enumerates(xs, s) && xs != []
    ensures Enumerates(xs[1..], s - {xs[0]})
  {
    forall o | o in xs[1..] ensures o in s - {xs[0]} {
      var j :| 0 <= j < |xs[1..]| && xs[1..][j] == o;
      assert xs[j + 1] == o;
    }
    forall o | o in s - {xs[0]} ensures o in xs[1..] {
      var j :| 0 <= j < |xs| && xs[j] == o;
      assert xs[1..][j - 1] == o;
    }
  }

  /** Scheduling calls one after another. */
  function ScheduleEach(e: Effects, calls: seq<Call>, threadType: int): Effects
  {
    if calls == [] then e
    else Schedule(ScheduleEach(e, calls[..|calls| - 1], threadType), calls[|calls| - 1], threadType)
  }

  /** Scheduling a sequence of calls on one thread type: on the calling
      thread they all run, in order, before the dispatch returns; on the main
      thread they are queued in order; on new threads they are all started;
      with any other value nothing happens. */
  lemma ScheduleEachEffect(e: Effects, calls: seq<Call>, threadType: int)
    ensures threadType == CurrentThread ==> ScheduleEach(e, calls, threadType) == e.(ran := e.ran + calls)
    ensures threadType == MainThread ==> ScheduleEach(e, calls, threadType) == e.(mainQueue := e.mainQueue + calls)
    ensures threadType == NewThread ==> ScheduleEach(e, calls, threadType) == e.(spawned := e.spawned + multiset(calls))
    ensures !IsThreadType(threadType) ==> ScheduleEach(e, calls, threadType) == e
  {
    if threadType == CurrentThread {
      ScheduleEachInline(e, calls);
    } else if threadType == MainThread {
      ScheduleEachQueued(e, calls);
    } else if threadType == NewThread {
      ScheduleEachSpawned(e, calls);
    } else {
      ScheduleEachIgnored(e, calls, threadType);
    }
  }

  lemma {:induction false} ScheduleEachInline(e: Effects, calls: seq<Call>)
    ensures ScheduleEach(e, calls, CurrentThread) == e.(ran := e.ran + calls)
  {
    if calls != [] {
      var init, last := calls[..|calls| - 1], calls[|calls| - 1];
      ScheduleEachInline(e, init);
      assert calls == init + [last];
      assert e.ran + init + [last] == e.ran + calls;
    }
  }

  lemma {:induction false} ScheduleEachQueued(e: Effects, calls: seq<Call>)
    ensures ScheduleEach(e, calls, MainThread) == e.(mainQueue := e.mainQueue + calls)
  {
    if calls != [] {
      var init, last := calls[..|calls| - 1], calls[|calls| - 1];
      ScheduleEachQueued(e, init);
      assert calls == init + [last];
      assert e.mainQueue + init + [last] == e.mainQueue + calls;
    }
  }

  lemma {:induction false} ScheduleEachSpawned(e: Effects, calls: seq<Call>)
    ensures ScheduleEach(e, calls, NewThread) == e.(spawned := e.spawned + multiset(calls))
  {
    if calls != [] {
      var init, last := calls[..|calls| - 1], calls[|calls| - 1];
      ScheduleEachSpawned(e, init);
      assert calls == init + [last];
      assert multiset(calls) == multiset(init) + multiset{last};
    }
  }

  lemma {:induction false} ScheduleEachIgnored(e: Effects, calls: seq<Call>, threadType: int)
    requires !IsThreadType(threadType)
    ensures ScheduleEach(e, calls, threadType) == e
  {
    if calls != [] {
      ScheduleEachIgnored(e, calls[..|calls| - 1], threadType);
    }
  }

  /** A dispatch on one of the three thread types hands the scheduler exactly
      one call per listener of the lookup, and no other call. */
  lemma DispatchReachesEachListenerOnce(
    e: Effects, xs: seq<ObjId>, s: set<ObjId>, methodName: string, args: seq<Value>, threadType: int)
    requires Enumerates(xs, s) && IsThreadType(threadType)
    ensures forall c: Call :: (Scheduled(ScheduleEach(e, CallsTo(xs, methodName, args), threadType))[c]
      == Scheduled(e)[c] + (if c.methodName == methodName && c.args == args && c.listener in s then 1 else 0))
  {
    var calls := CallsTo(xs, methodName, args);
    ScheduleEachEffect(e, calls, threadType);
    OneCallPerListener(xs, s, methodName, args);
    assert Scheduled(ScheduleEach(e, calls, threadType)) == Scheduled(e) + multiset(calls);
    forall c: Call | !(c.methodName == methodName && c.args == args) ensures multiset(calls)[c] == 0 {
      assert c !in calls;
    }
  }
}
