/**
 The checkpoint rows of indexer/src/checkpoint.ts: one row per backfill job, overwritten column by column.
 Timestamps are left out.
 */
module Checkpoint {
  import opened Wrappers

  datatype Status = InProgress | Completed | Failed | Cancelled

  datatype Progress = Progress(last: Option<int>, processed: nat, skipped: nat, failed: nat)

  datatype Row = Row(
    network: string, start: int, end: int, total: int,
    last: Option<int>, processed: nat, skipped: nat, failed: nat,
    status: Status, error: Option<string>)

  // INSERT ... ON CONFLICT (job_id) DO UPDATE: an existing row keeps its position and its counts.
  function CreateRow(row: Option<Row>, network: string, start: int, end: int): Row {
    match row
    case Some(r) => r.(status := InProgress, error := None)
    case None => Row(network, start, end, end - start + 1, None, 0, 0, 0, InProgress, None)
  }

  function SaveRow(r: Row, p: Progress): Row {
    r.(last := p.last, processed := p.processed, skipped := p.skipped, failed := p.failed)
  }

  function CompleteRow(r: Row, p: Progress): Row {
    SaveRow(r, p).(status := Completed)
  }

  function FailRow(r: Row, message: string, p: Progress): Row {
    SaveRow(r, p).(status := Failed, error := Some(message))
  }

  function CancelRow(r: Row, p: Progress): Row {
    SaveRow(r, p).(status := Cancelled)
  }

  // UPDATE ... WHERE job_id = $n touches no row when there is none.
  function UpdateRow(row: Option<Row>, f: Row -> Row): Option<Row> {
    match row
    case None => None
    case Some(r) => Some(f(r))
  }

  class CheckpointTable {
    var rows: map<string, Row>

    constructor ()
      ensures rows == map[]
    {
      rows := map[];
    }

    function RowOf(jobId: string): Option<Row>
      reads this
    {
      if jobId in rows then Some(rows[jobId]) else None
    }

    // The other jobs' rows are the ones of `before`.
    ghost predicate OnlyJobChanged(before: map<string, Row>, jobId: string)
      reads this
    {
      rows - {jobId} == before - {jobId}
    }

    method CreateCheckpoint(jobId: string, network: string, start: int, end: int)
      modifies this
      ensures RowOf(jobId) == Some(CreateRow(old(RowOf(jobId)), network, start, end))
      ensures OnlyJobChanged(old(rows), jobId)
    {
      if jobId in rows {
        rows := rows[jobId := rows[jobId].(status := InProgress, error := None)];
      } else {
        rows := rows[jobId := Row(network, start, end, end - start + 1, None, 0, 0, 0, InProgress, None)];
      }
    }

    method SaveCheckpoint(jobId: string, p: Progress)
      modifies this
      ensures RowOf(jobId) == UpdateRow(old(RowOf(jobId)), r => SaveRow(r, p))
      ensures OnlyJobChanged(old(rows), jobId)
    {
      if jobId in rows {
        var r := rows[jobId];
        rows := rows[jobId := r.(last := p.last, processed := p.processed, skipped := p.skipped, failed := p.failed)];
      }
    }

    method MarkCheckpointCompleted(jobId: string, p: Progress)
      modifies this
      ensures RowOf(jobId) == UpdateRow(old(RowOf(jobId)), r => CompleteRow(r, p))
      ensures OnlyJobChanged(old(rows), jobId)
    {
      if jobId in rows {
        var r := rows[jobId];
        rows := rows[jobId := r.(status := Completed, last := p.last,
                                 processed := p.processed, skipped := p.skipped, failed := p.failed)];
      }
    }

    method MarkCheckpointFailed(jobId: string, message: string, p: Progress)
      modifies this
      ensures RowOf(jobId) == UpdateRow(old(RowOf(jobId)), r => FailRow(r, message, p))
      ensures OnlyJobChanged(old(rows), jobId)
    {
      if jobId in rows {
        var r := rows[jobId];
        rows := rows[jobId := r.(status := Failed, last := p.last, processed := p.processed,
                                 skipped := p.skipped, failed := p.failed, error := Some(message))];
      }
    }

    method MarkCheckpointCancelled(jobId: string, p: Progress)
      modifies this
      ensures RowOf(jobId) == UpdateRow(old(RowOf(jobId)), r => CancelRow(r, p))
      ensures OnlyJobChanged(old(rows), jobId)
    {
      if jobId in rows {
        var r := rows[jobId];
        rows := rows[jobId := r.(status := Cancelled, last := p.last,
                                 processed := p.processed, skipped := p.skipped, failed := p.failed)];
      }
    }

    method LoadCheckpoint(jobId: string) returns (row: Option<Row>)
      ensures row == RowOf(jobId)
    {
      if jobId !in rows {
        return None;
      }
      return Some(rows[jobId]);
    }
  }
}
