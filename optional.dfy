/** Values that may be absent (`undefined`/`null` in the application) and
    operations that may fail. */
module Optional {

  datatype Option<+T> = None | Some(value: T) {
    /** `x ?? d` */
    function GetOr(default: T): T {
      if Some? then value else default
    }
  }

  datatype Result<+T, +E> = Success(value: T) | Failure(error: E)

  /** JavaScript truthiness of a value that is a string or absent: only a
      present, non-empty string is truthy. */
  predicate Truthy(s: Option<string>) {
    s.Some? && s.value != ""
  }

  /** `s || d` for a string-or-absent `s`. */
  function OrElse(s: Option<string>, d: string): string {
    if Truthy(s) then s.value else d
  }
}
