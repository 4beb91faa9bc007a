/** Small failure-carrying datatypes shared by every module of the model. */
module Common {

  /** A value that may be absent: JavaScript's `null`/`undefined` next to a value. */
  datatype Option<+T> = None | Some(value: T)

  /** Either a value or an error, used where the source throws. */
  datatype Result<+T, +E> = Ok(value: T) | Err(error: E)

  /** A request field JavaScript treats as true: present and not empty. */
  predicate Truthy(field: Option<string>) { field.Some? && field.value != "" }

  /** `value || fallback` for a setting that may be unset: the value when it
      is truthy, the fallback otherwise. */
  function OrElse(value: Option<string>, fallback: string): (r: string)
    ensures Truthy(value) ==> r == value.value
    ensures !Truthy(value) ==> r == fallback
    ensures r == "" ==> fallback == ""
  {
    if Truthy(value) then value.value else fallback
  }
}
