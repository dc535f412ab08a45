/** Form validation as the actions perform it with zod schemas: every field is checked, and a
    failure reports each failing field with its messages (`error.flatten().fieldErrors`). */
module Forms {
  import opened Wrappers

  /** The message of `z.string()` for a field whose form value is `null` (absent). */
  const NullMessage := "Expected string, received null"

  /** A validated value, or the messages per failing field. */
  datatype Validation<T> = Passed(value: T) | Failed(errors: map<string, seq<string>>)

  /** The issues of `z.string()` followed by one check `ok` carrying `message`: a null value
      fails the type test only; a string fails the check or nothing. */
  function StringIssues(v: Option<string>, ok: string -> bool, message: string): (r: seq<string>)
    ensures r == [] <==> v.Some? && ok(v.value)
    ensures v.None? ==> r == [NullMessage]
    ensures v.Some? && !ok(v.value) ==> r == [message]
  {
    match v
    case None => [NullMessage]
    case Some(s) => if ok(s) then [] else [message]
  }

  /** The issues of `z.string().optional()`: only a null value fails (an undefined one passes). */
  function OptionalStringIssues(v: Option<string>): (r: seq<string>)
    ensures r == [] <==> v.Some?
    ensures v.None? ==> r == [NullMessage]
  {
    if v.None? then [NullMessage] else []
  }

  /** Adds a field's issues to the error map when there are any. */
  function Report(errors: map<string, seq<string>>, field: string, issues: seq<string>): (r: map<string, seq<string>>)
    ensures field in r <==> field in errors || issues != []
    ensures issues != [] ==> r[field] == issues
    ensures forall f :: f != field && f in errors ==> f in r && r[f] == errors[f]
    ensures forall f :: f in r ==> f == field || f in errors
  {
    if issues == [] then errors else errors[field := issues]
  }
}
