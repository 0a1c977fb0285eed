/** Values shared by every layer: identifiers, clock readings, optional values,
    Go's `(value, error)` returns and the failures the PostgreSQL driver reports. */
module Common {

  /** A `uuid.UUID`; the all-zero UUID `uuid.Nil` is 0. */
  type Uuid = nat
  const NilUuid: Uuid := 0

  /** A `time.Time` reading of the wall clock. */
  type Time = int

  datatype Option<T> = None | Some(value: T)

  /** A Go return of the shape `(T, error)` where exactly one side is set. */
  datatype Result<T> = Ok(value: T) | Fail(err: string)

  /** An error returned by the pgx driver: `pgx.ErrNoRows`, or any other failure with its text. */
  datatype DbError = NoRows | Driver(msg: string)
  {
    /** The text of the error, as `err.Error()` gives it. */
    function Text(): string
    {
      match this
      case NoRows => "no rows in result set"
      case Driver(m) => m
    }
  }


  /** The error a PostgreSQL insert reports for a key that is already taken. */
  const DuplicateKey := "duplicate key value violates unique constraint"
  /** The repositories' own text for a single-row lookup that found nothing. */
  const NoDataFound := "no data found"

  /** What a repository's single-row query reports when it fails with `e`. */
  function LookupError(e: DbError): (msg: string)
    ensures e.NoRows? ==> msg == NoDataFound
    ensures e.Driver? ==> msg == e.msg
  {
    if e.NoRows? then NoDataFound else e.Text()
  }

  /** The driver failure, if any, met by a paginated listing: the COUNT query, the
      SELECT, the scan of one row (by its position in the page) or the row cursor. */
  datatype ListFault =
    | NoFault
    | CountFails(e: DbError)
    | QueryFails(e: DbError)
    | ScanFails(row: nat, e: DbError)
    | IterationFails(e: DbError)
}
