/** What the Go controllers see of one finished external command: the bytes
    it printed (stdout alone for `Output`, stdout and stderr together for
    `CombinedOutput`) and the text of the `error` the call returned, which is
    nil (`None`) exactly when the process ran and exited with status 0. */
module Exec {
  import opened Wrappers

  datatype Completed = Completed(output: string, err: Option<string>) {
    predicate Ok() { err.None? }
  }
}
