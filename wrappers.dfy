/** Absence and nullness, the two "no value" cases the web app distinguishes.
    Backend rows carry `T | null` (Nullable); view models carry optional fields
    that are either present or absent (Option). */
module Wrappers {

  /** A view-model field that is present or absent (`T | undefined`). */
  datatype Option<+T> = None | Some(value: T) {
    function GetOr(default: T): T {
      match this
      case Some(v) => v
      case None => default
    }
  }

  /** A backend column that may hold SQL/JSON `null` (`T | null`). */
  datatype Nullable<+T> = Null | NonNull(value: T)

  /** `x ?? undefined`: null becomes absent, a value stays. */
  function NullToAbsent<T>(x: Nullable<T>): (r: Option<T>)
    ensures r.None? <==> x.Null?
    ensures r.Some? ==> r.value == x.value
  {
    match x
    case Null => None
    case NonNull(v) => Some(v)
  }

  /** `x ?? undefined` on a field that may be missing or null (`x?: T | null`). */
  function MissingOrNullToAbsent<T>(x: Option<Nullable<T>>): (r: Option<T>)
    ensures r.None? <==> (x.None? || x.value.Null?)
    ensures r.Some? ==> r.value == x.value.value
  {
    match x
    case None => None
    case Some(n) => NullToAbsent(n)
  }

  /** The inverse direction: absent becomes null again. */
  function AbsentToNull<T>(x: Option<T>): (r: Nullable<T>)
    ensures NullToAbsent(r) == x
  {
    match x
    case None => Null
    case Some(v) => NonNull(v)
  }

  lemma NullRoundTrip<T>(x: Nullable<T>)
    ensures AbsentToNull(NullToAbsent(x)) == x
  {
  }
}
