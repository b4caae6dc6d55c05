/** What every other module shares: optional values, refusals, and the identifiers of the tables. */
module Common {
  datatype Option<+T> = None | Some(value: T)

  datatype Result<+T, +E> = Ok(value: T) | Err(error: E)

  /** Milliseconds on the server's clock. Each transaction reads it once. */
  type Time = int

  /** A participant. */
  type Pid = nat

  /** A question. */
  type Qid = nat

  const SECOND := 1000

  /** A job id the judge handed out. */
  type Job = nat

  datatype Verdict = AC | WA | TLE | MLE | OLE | RE | CE | IE
}
