/** The history file (`append_to_csv`, lines 117-125) as an append-only
    table of rows; opening, quoting and encoding are left out. */
module History {
  import opened Records

  /** The rows written for a batch, one per record, in batch order. */
  function CsvRows(jobs: seq<Job>): (rows: seq<seq<string>>)
    ensures |rows| == |jobs|
    ensures forall i :: 0 <= i < |jobs| ==> |rows[i]| == |Header| && rows[i] == CsvRow(jobs[i])
  {
    if jobs == [] then [] else CsvRows(jobs[..|jobs| - 1]) + [CsvRow(jobs[|jobs| - 1])]
  }

  class HistoryFile {
    /** Whether the file exists (`os.path.isfile(JOB_CSV)`). */
    var present: bool
    /** Its rows, header included when this code created the file. */
    var rows: seq<seq<string>>

    /** A file that does not exist has no rows. */
    ghost predicate Valid()
      reads this
    {
      !present ==> rows == []
    }

    constructor (present: bool, rows: seq<seq<string>>)
      requires present || rows == []
      ensures Valid() && this.present == present && this.rows == rows
    {
      this.present := present;
      this.rows := rows;
    }

    /** Appends one row per record, after a header row when the file did not
        exist yet. Earlier rows are never touched. */
    method Append(jobs: seq<Job>)
      requires Valid()
      modifies this
      ensures Valid() && present
      ensures rows == old(rows) + (if old(present) then [] else [Header]) + CsvRows(jobs)
      ensures |rows| == |old(rows)| + |jobs| + (if old(present) then 0 else 1)
    {
      var existed := present;
      present := true;
      if !existed {
        rows := rows + [Header];
      }
      ghost var before := rows;
      for i := 0 to |jobs|
        invariant present
        invariant rows == before + CsvRows(jobs[..i])
      {
        assert jobs[..i + 1][..i] == jobs[..i];
        rows := rows + [CsvRow(jobs[i])];
      }
      assert jobs[..|jobs|] == jobs;
    }
  }
}
