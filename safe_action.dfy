/**
 * The server-action wrapper: a handler's outcome (a returned value, a thrown `Error`,
 * something else thrown, or input that failed schema validation) becomes one of the
 * two shapes of `ActionResult`. Nothing a handler does escapes the wrapper.
 */
module SafeAction {

  /** `{ success: true, data }` or `{ success: false, error }`. */
  datatype ActionResult<+T> = Success(data: T) | Failure(error: string)

  /** How a handler finished: it returned, it threw an `Error` (with its message), or it threw a non-`Error`. */
  datatype Outcome<+T> = Returned(value: T) | Threw(message: string) | ThrewNonError

  /** One entry of a schema's flattened field errors: the field and its messages. */
  datatype FieldErrors = FieldErrors(field: string, messages: seq<string>)

  /** The schema's `safeParse` verdict on the raw input. */
  datatype Parsed<+I> = Valid(data: I) | Invalid(fieldErrors: seq<FieldErrors>)

  const UNEXPECTED_ERROR := "An unexpected error occurred"
  const VALIDATION_PREFIX := "Validation failed: "

  /** `parts.join(sep)`. */
  function Join(parts: seq<string>, sep: string): (r: string)
    ensures |parts| == 0 ==> r == ""
    ensures |parts| == 1 ==> r == parts[0]
    decreases |parts|
  {
    if |parts| == 0 then ""
    else if |parts| == 1 then parts[0]
    else parts[0] + sep + Join(parts[1..], sep)
  }

  /** Joining one more part appends the separator and that part. */
  lemma {:induction false} JoinSnoc(parts: seq<string>, x: string, sep: string)
    requires |parts| > 0
    ensures Join(parts + [x], sep) == Join(parts, sep) + sep + x
    decreases |parts|
  {
    if |parts| == 1 {
      assert parts + [x] == [parts[0], x];
      assert [parts[0], x][1..] == [x];
    } else {
      assert (parts + [x])[1..] == parts[1..] + [x];
      JoinSnoc(parts[1..], x, sep);
    }
  }

  /** `${field}: ${errors.join(", ")}`. */
  function FieldEntry(fe: FieldErrors): string
  {
    fe.field + ": " + Join(fe.messages, ", ")
  }

  /** The entries of the flattened field errors joined with "; ". */
  function FormatFieldErrors(fes: seq<FieldErrors>): (r: string)
    ensures fes == [] ==> r == ""
    ensures |fes| == 1 ==> r == FieldEntry(fes[0])
  {
    Join(seq(|fes|, i requires 0 <= i < |fes| => FieldEntry(fes[i])), "; ")
  }

  /** Every further invalid field adds "; " and its own entry at the end, so fields keep their order. */
  lemma FormatFieldErrorsSnoc(fes: seq<FieldErrors>, fe: FieldErrors)
    requires |fes| > 0
    ensures FormatFieldErrors(fes + [fe]) == FormatFieldErrors(fes) + "; " + FieldEntry(fe)
  {
    var entries := seq(|fes|, i requires 0 <= i < |fes| => FieldEntry(fes[i]));
    assert seq(|fes + [fe]|, i requires 0 <= i < |fes + [fe]| => FieldEntry((fes + [fe])[i]))
        == entries + [FieldEntry(fe)];
    JoinSnoc(entries, FieldEntry(fe), "; ");
  }

  /** The catch clause: the message of a thrown `Error`, or the generic message for anything else. */
  function CatchMessage<T>(o: Outcome<T>): (m: string)
    requires !o.Returned?
    ensures o.Threw? ==> m == o.message
    ensures o.ThrewNonError? ==> m == UNEXPECTED_ERROR
  {
    if o.Threw? then o.message else UNEXPECTED_ERROR
  }

  /** `createSafeNoInputAction(handler)()`, given how the handler finished. */
  function SafeNoInputAction<T>(o: Outcome<T>): (r: ActionResult<T>)
    ensures r.Success? <==> o.Returned?
    ensures o.Returned? ==> r.data == o.value
    ensures o.Threw? ==> r.error == o.message
    ensures o.ThrewNonError? ==> r.error == UNEXPECTED_ERROR
  {
    match o
    case Returned(v) => Success(v)
    case _ => Failure(CatchMessage(o))
  }

  /**
   * `createSafeAction(schema, handler)(rawInput)`, given the schema's verdict on the input.
   * The handler is applied only to validated data.
   */
  function SafeAction<I, T>(parsed: Parsed<I>, handler: I -> Outcome<T>): (r: ActionResult<T>)
    ensures parsed.Invalid? ==> r == Failure(VALIDATION_PREFIX + FormatFieldErrors(parsed.fieldErrors))
    ensures parsed.Valid? ==> r == SafeNoInputAction(handler(parsed.data))
  {
    match parsed
    case Invalid(fes) => Failure(VALIDATION_PREFIX + FormatFieldErrors(fes))
    case Valid(d) =>
      match handler(d)
      case Returned(v) => Success(v)
      case o => Failure(CatchMessage(o))
  }

  /** Invalid input never reaches the handler: any two handlers give the same result. */
  lemma InvalidInputIgnoresHandler<I, T>(fes: seq<FieldErrors>, h1: I -> Outcome<T>, h2: I -> Outcome<T>)
    ensures SafeAction(Invalid(fes), h1) == SafeAction(Invalid(fes), h2)
    ensures SafeAction(Invalid(fes), h1).Failure?
  {
  }

  /** A validation failure is reported with the "Validation failed: " prefix, so it never reads as a handler error. */
  lemma ValidationMessageHasPrefix<I, T>(fes: seq<FieldErrors>, h: I -> Outcome<T>)
    ensures VALIDATION_PREFIX <= SafeAction(Invalid(fes), h).error
  {
  }
}
