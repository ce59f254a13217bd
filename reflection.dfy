/** What `EventsHelper` asks of Java reflection, as plain data: the class of
    each object, what is known about each class (`isInterface`, the
    `@EventsListener` marker, `getInterfaces`, `getCanonicalName`, the types
    `isInstance` accepts) and which generated helper classes `Class.forName`
    can load. */
module Reflection {
  import opened Base
  import opened AnnotationProcessor

  /** What reflection reveals about one loaded class. */
  datatype ClassInfo = ClassInfo(
    /** `getCanonicalName()`: absent for local and anonymous classes. */
    canonicalName: Option<string>,
    isInterface: bool,
    /** `getAnnotation(EventsListener.class) != null` */
    markedEventsListener: bool,
    /** `getInterfaces()`: the interfaces the class itself declares, in
        declaration order (not those of its superclasses or superinterfaces). */
    interfaces: seq<ClassId>,
    /** Every proper supertype an instance of the class is assignable to. */
    supertypes: set<ClassId>)

  /** The running program as reflection sees it. */
  datatype Runtime = Runtime(
    classOf: ObjId -> ClassId,
    info: ClassId -> ClassInfo,
    /** The generated helper classes `Class.forName` finds, by binary name. */
    loadedHelpers: map<string, GeneratedClass>)

  /** `c.isInstance(o)` */
  predicate IsInstance(rt: Runtime, c: ClassId, o: ObjId)
  {
    c == rt.classOf(o) || c in rt.info(rt.classOf(o)).supertypes
  }

  /** Some interface the object's class declares directly carries the
      `@EventsListener` marker. */
  predicate ImplementsEventsListener(rt: Runtime, o: ObjId)
  {
    var interfaces := rt.info(rt.classOf(o)).interfaces;
    exists k :: 0 <= k < |interfaces| && rt.info(interfaces[k]).markedEventsListener
  }
}
