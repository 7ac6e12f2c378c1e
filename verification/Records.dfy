/** Rows as a store keeps them: a generated id, and the value the caller handed over. */
module Records {
  import opened Text
  import opened Sequences

  datatype Stored<+T> = Stored(id: string, value: T)

  /** An append-only table and the counter its ids come from. */
  datatype Log<+T> = Log(counter: nat, rows: seq<Stored<T>>)

  function Append<T>(log: Log<T>, prefix: string, value: T): Log<T> {
    Log(log.counter + 1, log.rows + [Stored(Numbered(prefix, log.counter + 1), value)])
  }

  /** The values of the matching rows, in append order. */
  function Project<T>(rows: seq<Stored<T>>, p: T -> bool): seq<T> {
    if rows == [] then []
    else
      var last := rows[|rows| - 1].value;
      Project(rows[..|rows| - 1], p) + (if p(last) then [last] else [])
  }

  lemma ProjectSnoc<T>(rows: seq<Stored<T>>, row: Stored<T>, p: T -> bool)
    ensures Project(rows + [row], p) == Project(rows, p) + (if p(row.value) then [row.value] else [])
  {
    assert (rows + [row])[..|rows|] == rows;
  }

  lemma {:induction false} ProjectNothing<T>(rows: seq<Stored<T>>, p: T -> bool)
    requires forall i :: 0 <= i < |rows| ==> !p(rows[i].value)
    ensures Project(rows, p) == []
  {
    if rows != [] {
      ProjectNothing(rows[..|rows| - 1], p);
    }
  }

  function Holding<T>(p: T -> bool): Stored<T> -> bool {
    (row: Stored<T>) => p(row.value)
  }

  function Values<T>(rows: seq<Stored<T>>): seq<T> {
    seq(|rows|, i requires 0 <= i < |rows| => rows[i].value)
  }

  /** Filtering rows and forgetting their ids is projecting. */
  lemma {:induction false} FilterProject<T>(rows: seq<Stored<T>>, p: T -> bool)
    ensures Values(Filter(rows, Holding(p))) == Project(rows, p)
  {
    if rows != [] {
      FilterProject(rows[..|rows| - 1], p);
    }
  }
}
