/** Values shared by every part of the model: optional values (Kotlin's nullable types),
    outcomes of calls that may throw, and exceptions. */
module Base {

  /** A Kotlin nullable value. */
  datatype Option<T> = None | Some(value: T) {
    /** Kotlin's elvis operator `this ?: other` on two nullable values. */
    function OrElse(other: Option<T>): Option<T> {
      if Some? then this else other
    }

    /** Kotlin's elvis operator with a non-null fallback. */
    function GetOr(fallback: T): T {
      if Some? then value else fallback
    }
  }

  /** A thrown exception: the classes it is an instance of (its own class and every
      supertype), and its message. `IsInstance` is Kotlin's `Class.isInstance`. */
  datatype Exception = Exception(classes: set<string>, message: string) {
    predicate IsInstance(cls: string) { cls in classes }
  }

  const IllegalStateException := "IllegalStateException"

  /** An IllegalStateException carrying the given message (Kotlin's `error(...)`). */
  function IllegalState(message: string): (e: Exception)
    ensures e.IsInstance(IllegalStateException) && e.message == message
  {
    Exception({IllegalStateException, "RuntimeException", "Exception", "Throwable"}, message)
  }

  /** The result of a call that either returns a value or throws. */
  datatype Outcome<T> = Ok(value: T) | Thrown(error: Exception)

  datatype Unit = Unit

  /** Kotlin's `reversed()`. */
  function Reverse<X>(s: seq<X>): (r: seq<X>)
    ensures |r| == |s| && forall i :: 0 <= i < |s| ==> r[i] == s[|s| - 1 - i]
  {
    if s == [] then [] else Reverse(s[1..]) + [s[0]]
  }

  /** The elements of a Kotlin `Set` listed in iteration order are pairwise different. */
  predicate Distinct<X(==)>(s: seq<X>) {
    forall i, j :: 0 <= i < j < |s| ==> s[i] != s[j]
  }
}
