/** `Migrate` as it runs on one connection, statement by statement, against a
    database whose statements may fail. */
module MigrationServices {
  import opened Wrappers
  import opened MigrationRunner

  /** The statements a migration run sends, `at` naming the migration. */
  datatype Statement =
    | TakeLock | CreateTable
    | Check(at: nat) | BeginTx(at: nat) | Apply(at: nat) | Record(at: nat) | CommitTx(at: nat)
    | ReleaseLock

  /** What comes of a statement: it may take effect and its answer be lost. */
  datatype Answer = Works | Breaks | BreaksAfterLanding

  /** How many of the listed migrations are dealt with when a run stops. */
  function Reached(failure: Option<Statement>, answers: Statement -> Answer, n: nat): nat {
    match failure
    case None => n
    case Some(CommitTx(i)) => if answers(CommitTx(i)) == BreaksAfterLanding then i + 1 else i
    case Some(Check(i)) => i
    case Some(BeginTx(i)) => i
    case Some(Apply(i)) => i
    case Some(Record(i)) => i
    case Some(_) => 0
  }

  /** Whether the lock outlives the run: granted without an answer, nothing
      gives it back; otherwise the unlock, whose own answer nobody reads, may
      not get through. */
  predicate StaysLocked(failure: Option<Statement>, answers: Statement -> Answer) {
    if failure == Some(TakeLock) then answers(TakeLock) == BreaksAfterLanding else answers(ReleaseLock) == Breaks
  }

  class Database {
    var applied: seq<string>
    var recorded: seq<string>
    var locked: bool

    constructor (recorded: seq<string>)
      ensures applied == recorded == this.recorded && !locked
    {
      this.applied, this.recorded, locked := recorded, recorded, false;
    }

    /** The record's primary key. */
    method InsertVersion(rows: seq<string>, version: string) returns (r: Option<seq<string>>)
      ensures r == if version in recorded + rows then None else Some(rows + [version])
    {
      if version in recorded + rows {
        return None;
      }
      r := Some(rows + [version]);
    }

    /** The deferred unlock. */
    method Unlock(answers: Statement -> Answer)
      modifies this`locked
      ensures locked == (old(locked) && answers(ReleaseLock) == Breaks)
    {
      if answers(ReleaseLock) != Breaks {
        locked := false;
      }
    }

    /** Stops at the first statement that fails, having committed every migration
        before it and nothing of the one it was in, unless it was the commit and
        that took effect. */
    method Migrate(versions: seq<string>, answers: Statement -> Answer) returns (failure: Option<Statement>)
      requires !locked
      modifies this
      ensures locked == StaysLocked(failure, answers)
      ensures Reached(failure, answers, |versions|) <= |versions|
      ensures recorded == Target(old(recorded), versions[..Reached(failure, answers, |versions|)])
      ensures old(recorded) <= recorded && applied == old(applied) + recorded[|old(recorded)|..]
      ensures failure.Some? ==> !failure.value.ReleaseLock? && answers(failure.value) != Works
      ensures (forall s: Statement :: s.ReleaseLock? || answers(s) == Works) ==> failure.None?
    {
      hide Target;
      ghost var before := recorded;
      TargetOfNothing(recorded, versions);
      if answers(TakeLock) != Works {
        locked := answers(TakeLock) == BreaksAfterLanding;
        return Some(TakeLock);
      }
      locked := true;
      if answers(CreateTable) != Works {
        Unlock(answers);
        return Some(CreateTable);
      }
      failure := ApplyAll(versions, answers);
      Unlock(answers);
    }

    /** The loop, under the lock. */
    method ApplyAll(versions: seq<string>, answers: Statement -> Answer) returns (failure: Option<Statement>)
      requires locked
      modifies this`applied, this`recorded
      ensures Reached(failure, answers, |versions|) <= |versions|
      ensures recorded == Target(old(recorded), versions[..Reached(failure, answers, |versions|)])
      ensures old(recorded) <= recorded && applied == old(applied) + recorded[|old(recorded)|..]
      ensures failure.Some? ==>
                (failure.value.Check? || failure.value.BeginTx? || failure.value.Apply? || failure.value.Record?
                 || failure.value.CommitTx?)
                && answers(failure.value) != Works
    {
      hide Target;
      ghost var before := recorded;
      TargetOfNothing(recorded, versions);
      for i := 0 to |versions|
        invariant recorded == Target(before, versions[..i])
        invariant before <= recorded && applied == old(applied) + recorded[|before|..]
      {
        TargetSnoc(before, versions, i);
        if answers(Check(i)) != Works {
          return Some(Check(i));
        }
        if versions[i] in recorded {
          continue;
        }
        if answers(BeginTx(i)) != Works {
          return Some(BeginTx(i));
        }
        var ran, rows: seq<string> := [], [];
        if answers(Apply(i)) != Works {
          return Some(Apply(i));
        }
        ran := ran + [versions[i]];
        var inserted := InsertVersion(rows, versions[i]);
        if answers(Record(i)) != Works || inserted.None? {
          return Some(Record(i));
        }
        rows := inserted.value;
        if answers(CommitTx(i)) != Breaks {
          applied, recorded := applied + ran, recorded + rows;
        }
        if answers(CommitTx(i)) != Works {
          return Some(CommitTx(i));
        }
      }
      assert versions[..|versions|] == versions;
      failure := None;
    }
  }
}
