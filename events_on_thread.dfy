/** The `@EventsOnThread` annotation: which thread a contract method's
    dispatched calls run on. The annotation is method-level and kept at run
    time, so the thread type is an attribute of each method (the
    `threadAnnotation` of an enclosed element in AnnotationProcessor). */
module EventsOnThread {
  import opened Base

  /** Post the call to the main thread's handler queue. */
  const MainThread: int := 0
  /** Run the call on a newly started thread. */
  const NewThread: int := 1
  /** Run the call on the calling thread, before the dispatch returns. */
  const CurrentThread: int := 2

  /** The `@ThreadType` IntDef: the values a thread type is declared to take.
      The IntDef is a lint-time check only, so an annotation can still carry
      any other `int`. */
  predicate IsThreadType(t: int)
  {
    t == MainThread || t == NewThread || t == CurrentThread
  }

  /** The three constants are pairwise distinct and are exactly the values the
      IntDef admits. */
  function ThreadTypes(): (s: set<int>)
    ensures |s| == 3
    ensures forall t :: t in s <==> IsThreadType(t)
  {
    var s := {MainThread, NewThread, CurrentThread};
    assert s == {0} + {1} + {2};
    s
  }

  /** `value()` of an annotation written without an argument. */
  function DefaultValue(): (t: int)
    ensures IsThreadType(t) && t == CurrentThread
  {
    CurrentThread
  }

  /** The thread type of a method: the annotation's value when the method is
      annotated, the default `CurrentThread` when it is not. */
  function ThreadTypeOf(annotation: Option<int>): (t: int)
    ensures annotation.Some? ==> t == annotation.value
    ensures annotation.None? ==> t == CurrentThread
    ensures (annotation.None? || IsThreadType(annotation.value)) ==> IsThreadType(t)
  {
    match annotation
    case None => DefaultValue()
    case Some(v) => v
  }
}
