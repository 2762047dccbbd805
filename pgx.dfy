/**
 * How the book and user servers read a failed `row.Scan`. Their connection
 * pools come from `github.com/jackc/pgx/v5`, which reports a missing row
 * with its own `ErrNoRows` value; the servers compare the error against the
 * `ErrNoRows` of `github.com/jackc/pgx`, the module path without a
 * major-version suffix, which is a different value.
 */
module Pgx {
  import opened Grpc

  /** The two driver modules, each declaring its own `ErrNoRows`. */
  datatype Driver = Unversioned | V5

  /** What `row.Scan` reports: a missing row, in some driver's sentinel, or any other failure. */
  datatype ScanError = NoRows(from: Driver) | QueryFailed

  /** The driver the services' pools come from. */
  const PoolDriver: Driver := V5

  /** The driver whose sentinel the book and user servers import. */
  const ImportedDriver: Driver := Unversioned

  /**
   * The status a server answers for a scan error when it compares against
   * `sentinel`'s `ErrNoRows`: `NotFound` exactly when the error is that very
   * value, `Internal` for everything else.
   */
  function ScanStatus(err: ScanError, sentinel: Driver, notFound: string, internal: string): (s: Status)
    ensures s.code == NotFound <==> err == NoRows(sentinel)
    ensures s == Status(NotFound, notFound) || s == Status(Internal, internal)
  {
    if err == NoRows(sentinel) then Status(NotFound, notFound) else Status(Internal, internal)
  }

  /** As written: a missing row reported by the pool never matches the imported sentinel, so it is `Internal`. */
  lemma MissingRowAsWritten(notFound: string, internal: string)
    ensures ScanStatus(NoRows(PoolDriver), ImportedDriver, notFound, internal) == Status(Internal, internal)
  {
  }

  /**
   * As intended: compared against the pool's own sentinel, a missing row is
   * `NotFound` and any other failure is still `Internal`.
   */
  lemma MissingRowIntended(notFound: string, internal: string)
    ensures ScanStatus(NoRows(PoolDriver), PoolDriver, notFound, internal) == Status(NotFound, notFound)
    ensures ScanStatus(QueryFailed, PoolDriver, notFound, internal) == Status(Internal, internal)
  {
  }
}
