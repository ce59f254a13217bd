/** The Kotlin extensions of `EventsHelper`: a reified `of`, registration of
    (listener, tag) pairs, and the `listeners` view whose `+=`, `-=` and
    `clear()` act on the helper's registry. */
module Extensions {
  import opened Base
  import opened Reflection
  import opened Dispatch
  import opened Core

  /** `of<T>(tag)`: the helper of the reified contract class, with the tag
      defaulting to `null`; it behaves exactly as `of(T::class.java, tag)`. */
  method OfReified(h: EventsHelper, listenerClass: ClassId, tag: Tag := None) returns (r: Result<Forwarder>)
    modifies h`helperCache
    ensures OfSpec(h, listenerClass, tag, r)
    ensures old(h.CacheConsistent()) ==> h.CacheConsistent()
  {
    r := h.Of(listenerClass, tag);
  }

  /** One registration per (listener, tag) pair, in order. */
  function Tagged(pairs: seq<(ObjId, Tag)>): (rs: seq<Registration>)
    ensures |rs| == |pairs|
    ensures forall k :: 0 <= k < |rs| ==> rs[k] == Registration(Some(pairs[k].0), pairs[k].1)
  {
    seq(|pairs|, k requires 0 <= k < |pairs| => Registration(Some(pairs[k].0), pairs[k].1))
  }

  /** `registerListener(vararg listenerPairs)`: registers each pair's
      listener with the pair's tag, in argument order, until one is refused. */
  method RegisterListenerPairs(h: EventsHelper, pairs: seq<(ObjId, Tag)>) returns (outcome: Outcome)
    modifies h`listeners
    ensures (h.listeners, outcome) == RegisterEach(h.runtime, old(h.listeners), Tagged(pairs))
  {
    ghost var rs := Tagged(pairs);
    outcome := Pass;
    var i := 0;
    while i < |pairs|
      invariant 0 <= i <= |pairs|
      invariant outcome == Pass
      invariant RegisterEach(h.runtime, old(h.listeners), rs) == RegisterEach(h.runtime, h.listeners, rs[i..])
    {
      assert rs[i..][0] == Registration(Some(pairs[i].0), pairs[i].1) && rs[i..][1..] == rs[i + 1..];
      ghost var before := h.listeners;
      var (listener, tag) := pairs[i];
      outcome := h.RegisterListener(Some(listener), tag);
      if outcome.Fail? {
        assert RegisterEach(h.runtime, before, rs[i..]) == (before, outcome);
        return;
      }
      i := i + 1;
    }
  }

  /** The second component of a `Pair` element, as the `as String` cast sees
      it. */
  datatype PairSecond = NullSecond | StringSecond(s: string) | OtherSecond

  /** An element of the list given to `listeners += list`: a `Pair` (whose
      first component may be `null`), or any other object. */
  datatype Item = PairItem(first: Option<ObjId>, second: PairSecond) | ListenerItem(listener: ObjId)

  const NullCastMessage: string := "null cannot be cast to non-null type kotlin.String"

  /** The registration an element stands for, or the exception unpacking it
      throws: `first!!` on a `null` first, then the `as String` cast on a
      `null` or non-`String` second. */
  function ItemRegistration(item: Item): (r: Result<Registration>)
    ensures r.Success? ==> r.value.listener.Some?
    ensures item.ListenerItem? ==> r == Success(Registration(Some(item.listener), None))
    ensures item.PairItem? && r.Success? ==>
      item.second.StringSecond? && r.value == Registration(item.first, Some(item.second.s))
    ensures r.Failure? <==> item.PairItem? && (item.first.None? || !item.second.StringSecond?)
  {
    match item
    case ListenerItem(o) => Success(Registration(Some(o), None))
    case PairItem(first, second) =>
      if first.None? then Failure(NullPointerException(NoMessage))
      else match second
        case NullSecond => Failure(NullPointerException(NullCastMessage))
        case OtherSecond => Failure(ClassCastException(NoMessage))
        case StringSecond(s) => Success(Registration(first, Some(s)))
  }

  /** `listeners += list`, element by element, until an element cannot be
      unpacked or its registration is refused. */
  function PlusAssignEach(rt: Runtime, reg: Registry, items: seq<Item>): (Registry, Outcome)
    decreases items
  {
    if items == [] then (reg, Pass)
    else match ItemRegistration(items[0])
      case Failure(e) => (reg, Fail(e))
      case Success(r) =>
        match RegisterStep(rt, reg, r.listener, r.tag)
        case Failure(e) => (reg, Fail(e))
        case Success(next) => PlusAssignEach(rt, next, items[1..])
  }

  /** A list of plain listeners is registered exactly as
      `registerListeners` registers the same listeners. */
  lemma {:induction false} PlusAssignPlainListeners(rt: Runtime, reg: Registry, items: seq<Item>)
    requires forall k :: 0 <= k < |items| ==> items[k].ListenerItem?
    ensures PlusAssignEach(rt, reg, items)
      == RegisterEach(rt, reg, Untagged(seq(|items|, k requires 0 <= k < |items| => Some(items[k].listener))))
    decreases items
  {
    var batch := seq(|items|, k requires 0 <= k < |items| => Some(items[k].listener));
    if items != [] {
      var next := reg[items[0].listener := None];
      var rest := seq(|items[1..]|, k requires 0 <= k < |items[1..]| => Some(items[1..][k].listener));
      assert Untagged(batch)[1..] == Untagged(rest);
      if Accepted(rt, Some(items[0].listener)) {
        PlusAssignPlainListeners(rt, next, items[1..]);
      }
    }
  }

  /** The `listeners` view: it holds nothing but the helper, so every
      operation acts on the helper's own registry. */
  class ListenersCollection {
    const eventsHelper: EventsHelper

    constructor (eventsHelper: EventsHelper)
      ensures this.eventsHelper == eventsHelper
    {
      this.eventsHelper := eventsHelper;
    }

    /** `plusAssign(list)` */
    method PlusAssignList(list: seq<Item>) returns (outcome: Outcome)
      modifies eventsHelper`listeners
      ensures (eventsHelper.listeners, outcome) == PlusAssignEach(eventsHelper.runtime, old(eventsHelper.listeners), list)
    {
      outcome := Pass;
      var i := 0;
      while i < |list|
        invariant 0 <= i <= |list|
        invariant outcome == Pass
        invariant PlusAssignEach(eventsHelper.runtime, old(eventsHelper.listeners), list)
          == PlusAssignEach(eventsHelper.runtime, eventsHelper.listeners, list[i..])
      {
        assert list[i..][0] == list[i] && list[i..][1..] == list[i + 1..];
        ghost var before := eventsHelper.listeners;
        var item := list[i];
        if item.PairItem? {
          if item.first.None? {
            return Fail(NullPointerException(NoMessage));
          }
          match item.second {
            case NullSecond =>
              return Fail(NullPointerException(NullCastMessage));
            case OtherSecond =>
              return Fail(ClassCastException(NoMessage));
            case StringSecond(tag) =>
              outcome := eventsHelper.RegisterListener(item.first, Some(tag));
          }
        } else {
          outcome := eventsHelper.RegisterUntagged(Some(item.listener));
        }
        if outcome.Fail? {
          assert PlusAssignEach(eventsHelper.runtime, before, list[i..]) == (before, outcome);
          return;
        }
        i := i + 1;
      }
    }

    /** `plusAssign(pair)`: registers the pair's listener with its tag. */
    method PlusAssignPair(pair: (ObjId, string)) returns (outcome: Outcome)
      modifies eventsHelper`listeners
      ensures var step := RegisterStep(eventsHelper.runtime, old(eventsHelper.listeners), Some(pair.0), Some(pair.1));
        && (step.Success? ==> outcome == Pass && eventsHelper.listeners == step.value)
        && (step.Failure? ==> outcome == Fail(step.error) && eventsHelper.listeners == old(eventsHelper.listeners))
    {
      outcome := eventsHelper.RegisterListener(Some(pair.0), Some(pair.1));
    }

    /** `plusAssign(listener)`: registers the listener without a tag. */
    method PlusAssign(listener: ObjId) returns (outcome: Outcome)
      modifies eventsHelper`listeners
      ensures var step := RegisterStep(eventsHelper.runtime, old(eventsHelper.listeners), Some(listener), None);
        && (step.Success? ==> outcome == Pass && eventsHelper.listeners == step.value)
        && (step.Failure? ==> outcome == Fail(step.error) && eventsHelper.listeners == old(eventsHelper.listeners))
    {
      outcome := eventsHelper.RegisterUntagged(Some(listener));
    }

    /** `minusAssign(list)`: unregisters every listener of the list. */
    method MinusAssignList(list: seq<ObjId>)
      modifies eventsHelper`listeners
      ensures eventsHelper.listeners == old(eventsHelper.listeners) - set k | 0 <= k < |list| :: list[k]
    {
      var batch := seq(|list|, k requires 0 <= k < |list| => Some(list[k]));
      var outcome := eventsHelper.UnregisterListeners(Some(batch));
      var rs := Untagged(batch);
      assert ListenersIn(rs) == set k | 0 <= k < |list| :: list[k] by {
        forall o | o in ListenersIn(rs) ensures o in list {
          var k :| 0 <= k < |rs| && rs[k].listener == Some(o);
          assert list[k] == o;
        }
        forall o | o in list ensures o in ListenersIn(rs) {
          var k :| 0 <= k < |list| && list[k] == o;
          assert rs[k].listener == Some(o);
        }
      }
    }

    /** `minusAssign(listener)`: unregisters just that listener. */
    method MinusAssign(listener: ObjId)
      modifies eventsHelper`listeners
      ensures eventsHelper.listeners == old(eventsHelper.listeners) - {listener}
    {
      var outcome := eventsHelper.UnregisterListener(Some(listener));
    }

    /** `clear()` */
    method Clear()
      modifies eventsHelper`listeners
      ensures eventsHelper.listeners == map[]
    {
      eventsHelper.ClearAllListeners();
    }
  }

  /** The `listeners` extension property: a new view on the helper each time. */
  method Listeners(h: EventsHelper) returns (c: ListenersCollection)
    ensures fresh(c) && c.eventsHelper == h
  {
    c := new ListenersCollection(h);
  }
}
