/** Data shared by the handler, the run recorder and the batch driver:
    dataset rows, loosely typed payload values and the exceptions the
    harness can raise. */
module Values {
  import opened Wrappers

  /** One dataset row as produced by the dataset collaborator: column name to
      cell text. */
  type Row = map<string, string>

  /** A value inside a tracking payload or a configuration mapping. */
  datatype Value = Null | Flag(b: bool) | Int(i: int) | Num(x: real) | Text(s: string)

  /** A configuration or logged mapping. */
  type Record = map<string, Value>

  /** The exceptions the modelled code can raise or let through. */
  datatype Error =
    | KeyError(key: string)                              // `d[k]` with `k` absent
    | IndexError                                         // `xs[0]` with `xs` empty
    | DatasetNotFound(path: string, subset: string, split: string)
    | TemplateNotFound(path: string)
    | OracleError(message: string)                       // raised inside the scoring oracle
    | NoGitRepository                                    // no repository above the working directory

  /** Python's `row.get(key, default)`. */
  function Get(row: Row, key: string, default: string): (r: string)
    ensures key in row ==> r == row[key]
    ensures key !in row ==> r == default
  {
    if key in row then row[key] else default
  }

  /** Python's `row[key]`: a missing key raises `KeyError`. */
  function Lookup(row: Row, key: string): (r: Result<string, Error>)
    ensures r.Success? <==> key in row
    ensures r.Success? ==> r.value == row[key]
    ensures r.Failure? ==> r.error == KeyError(key)
  {
    if key in row then Success(row[key]) else Failure(KeyError(key))
  }
}
