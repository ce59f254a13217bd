/** Values shared by every part of the model: nullable references, object and
    class identities, listener tags, the Java exceptions the library throws and
    the argument values a contract method is called with. */
module Base {

  /** A value that Java allows to be `null`. */
  datatype Option<+T> = None | Some(value: T)

  /** A call that returns a value or throws an exception. */
  datatype Result<+T> = Success(value: T) | Failure(error: Exception)

  /** A `void` call that returns normally or throws an exception. */
  datatype Outcome = Pass | Fail(error: Exception)

  /** A heap object, by reference identity. The registry compares its keys
      by this identity, which is what `HashMap` does for listeners that keep
      `Object`'s `equals` and `hashCode`. */
  type ObjId = nat

  /** Identity of a loaded `java.lang.Class`. */
  type ClassId = nat

  /** The tag of a listener or of a lookup: a nullable `String`. */
  type Tag = Option<string>

  /** The exceptions the modelled code throws, with their messages. */
  datatype Exception =
    | NullPointerException(message: string)
    | IllegalArgumentException(message: string)
    | UnsupportedOperationException(message: string)
    | ClassNotFoundException(className: string)
    | ClassCastException(message: string)
    | RuntimeException(cause: Exception)

  /** An argument passed to a contract method; the dispatcher only forwards it. */
  datatype Value = IntValue(i: int) | StringValue(s: string) | RefValue(id: ObjId) | NullValue
}
