/** Vocabulary shared by every layer: Go's nil-able values, error returns and
    the two sentinel errors every lookup can produce. */
module Common {

  /** A Go value that may be nil (a *T or an interface). */
  datatype Option<+T> = None | Some(value: T)

  /** A Go `error`. `RecordNotFound` is gorm's ErrRecordNotFound, which the
      services recognise with errors.Is; every other error is known only by
      its text. */
  datatype Error = RecordNotFound | Failure(message: string)

  /** The `(value, error)` pair a Go function returns, with exactly one of
      the two set. */
  datatype Result<+T> = Ok(value: T) | Err(error: Error)

  /** Times are nanoseconds since the Unix epoch; `time.Time{}` (January 1 of
      year 1, UTC) is the zero value Go leaves in fields nobody sets. */
  const ZeroTime: int := -62135596800 * 1000000000

  /** err.Error() */
  function ErrorText(e: Error): string
  {
    match e
    case RecordNotFound => "record not found"
    case Failure(m) => m
  }

  /** fmt.Errorf(prefix + ": %w", err), as far as its text goes. */
  function Wrap(prefix: string, e: Error): Error
  {
    Failure(prefix + ": " + ErrorText(e))
  }

  /** fmt.Errorf(text): a fresh error with a fixed message. */
  function Fail(text: string): Error
  {
    Failure(text)
  }
}
