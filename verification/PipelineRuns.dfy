/** `pipeline_runs`: one status row for each batch and layer. */
module PipelineRuns {
  import opened Wrappers

  datatype RunStatus = Running | Successful | Failing

  datatype RunRow = RunRow(
    status: RunStatus, startedAt: int, finishedAt: Option<int>, rowsIn: Option<int>, rowsOut: Option<int>,
    error: Option<string>)

  type RunKey = (string, string)

  class Runs {
    var table: map<RunKey, RunRow>

    constructor ()
      ensures table == map[]
    {
      table := map[];
    }

    /** Upsert: a retry resets the row. */
    method MarkStarted(batch: string, layer: string, now: int)
      modifies this
      ensures table == old(table)[(batch, layer) := RunRow(Running, now, None, None, None, None)]
    {
      table := table[(batch, layer) := RunRow(Running, now, None, None, None, None)];
    }

    /** UPDATE: nothing happens without a row. */
    method MarkSuccess(batch: string, layer: string, rowsIn: int, rowsOut: int, now: int)
      modifies this
      ensures table == if (batch, layer) in old(table)
        then old(table)[(batch, layer) := old(table)[(batch, layer)].(
          status := Successful, finishedAt := Some(now),
          rowsIn := Some(rowsIn), rowsOut := Some(rowsOut), error := None)]
        else old(table)
    {
      if (batch, layer) in table {
        table := table[(batch, layer) := table[(batch, layer)].(
          status := Successful, finishedAt := Some(now),
          rowsIn := Some(rowsIn), rowsOut := Some(rowsOut), error := None)];
      }
    }

    /** UPDATE with the error message cut to 4000 characters. */
    method MarkFailed(batch: string, layer: string, error: string, now: int)
      modifies this
      ensures
        var text := if |error| <= 4000 then error else error[..4000];
        table == if (batch, layer) in old(table)
          then old(table)[(batch, layer) := old(table)[(batch, layer)].(
            status := Failing, finishedAt := Some(now), error := Some(text))]
          else old(table)
    {
      var text := if |error| <= 4000 then error else error[..4000];
      if (batch, layer) in table {
        table := table[(batch, layer) := table[(batch, layer)].(
          status := Failing, finishedAt := Some(now), error := Some(text))];
      }
    }

    predicate HasSucceeded(batch: string, layer: string)
      reads this
    {
      (batch, layer) in table && table[(batch, layer)].status.Successful?
    }
  }
}
