/** The migration runner: replicas that contend for one advisory lock, apply and
    record each pending migration in one transaction, and may fail or crash
    between any two statements. */
module MigrationRunner {
  import opened Wrappers
  import opened Sequences

  // ----- What a run should leave behind -----

  /** `recorded` after the migrations `versions`, each skipped if on record. */
  function Target(recorded: seq<string>, versions: seq<string>): seq<string> {
    if versions == [] then recorded
    else
      var (before, last) := (Target(recorded, versions[..|versions| - 1]), versions[|versions| - 1]);
      if last in before then before else before + [last]
  }

  lemma TargetOfNothing(recorded: seq<string>, versions: seq<string>)
    ensures Target(recorded, versions[..0]) == recorded
  {
    assert versions[..0] == [];
  }

  lemma TargetSnoc(recorded: seq<string>, versions: seq<string>, i: nat)
    requires i < |versions|
    ensures var before := Target(recorded, versions[..i]);
            Target(recorded, versions[..i + 1]) == if versions[i] in before then before else before + [versions[i]]
  {
    assert versions[..i + 1][..i] == versions[..i];
  }

  lemma {:induction false} TargetGrows(recorded: seq<string>, versions: seq<string>, i: nat)
    requires i <= |versions|
    ensures Target(recorded, versions[..i]) <= Target(recorded, versions)
    decreases |versions|
  {
    if i < |versions| {
      TargetGrows(recorded, versions[..|versions| - 1], i);
      assert versions[..|versions| - 1][..i] == versions[..i];
    } else {
      assert versions[..i] == versions;
    }
  }

  function MissingFrom(recorded: seq<string>): string -> bool {
    (v: string) => v !in recorded
  }

  /** The target is the record followed by exactly the versions missing from it,
      in order, each once. */
  lemma {:induction false} TargetMeaning(recorded: seq<string>, versions: seq<string>)
    ensures Target(recorded, versions) == recorded + Filter(Dedup(versions), MissingFrom(recorded))
    ensures forall v :: v in Target(recorded, versions) <==> v in recorded || v in versions
    ensures NoDuplicates(recorded) ==> NoDuplicates(Target(recorded, versions))
  {
    hide Filter;
    FilterNone([], MissingFrom(recorded));
    if versions != [] {
      var init, last := versions[..|versions| - 1], versions[|versions| - 1];
      TargetMeaning(recorded, init);
      assert versions == init + [last];
      if last !in init {
        FilterSnoc(Dedup(init), last, MissingFrom(recorded));
      }
    }
  }

  /** Starting from any prefix of the deduplicated list, the runner arrives at
      the whole of it. */
  lemma {:induction false} TargetFromPrefix(versions: seq<string>, k: nat)
    requires k <= |Dedup(versions)|
    ensures Target(Dedup(versions)[..k], versions) == Dedup(versions)
  {
    hide Target, Filter, Dedup;
    var all := Dedup(versions);
    DedupMeaning(versions);
    TargetMeaning(all[..k], versions);
    assert all == all[..k] + all[k..];
    FilterConcat(all[..k], all[k..], MissingFrom(all[..k]));
    FilterNone(all[..k], MissingFrom(all[..k]));
    FilterAll(all[k..], MissingFrom(all[..k]));
  }

  /** Every listed migration gets applied exactly when no two share a version:
      the second of two that do is silently passed over. */
  lemma AllAppliedIffDistinct(versions: seq<string>)
    ensures Target([], versions) == versions <==> NoDuplicates(versions)
  {
    assert Dedup(versions)[..0] == [];
    TargetFromPrefix(versions, 0);
    DedupFixed(versions);
  }

  // ----- The replicas -----

  /** What an open transaction would commit. */
  datatype Tx = Tx(ran: seq<string>, rows: seq<string>)

  datatype Phase =
    | Idle | Waiting
    | Checking(next: nat) | Opening(next: nat)
    | Applying(next: nat, tx: Tx) | Recording(next: nat, tx: Tx) | Committing(next: nat, tx: Tx)
    | Finished | Failed

  predicate Working(p: Phase) {
    p.Checking? || p.Opening? || p.Applying? || p.Recording? || p.Committing?
  }

  /** `applied` logs the migrations whose SQL has been committed; `recorded` is
      the `schema_migrations` table. */
  datatype Cluster = Cluster(applied: seq<string>, recorded: seq<string>, lock: Option<nat>, phases: seq<Phase>)

  /** `unlocked` says whether the deferred unlock reached the database, and
      `landed` whether a failing statement took effect although its answer was
      lost: a commit, or the grant of the lock, which nothing then gives back. */
  datatype Move =
    | Begin(replica: nat)
    | Advance(replica: nat)
    | Return(replica: nat, unlocked: bool)
    | Fail(replica: nat, landed: bool, unlocked: bool)
    | Crash(replica: nat)

  function Enter(c: Cluster, r: nat, p: Phase): Cluster
    requires r < |c.phases|
  {
    c.(phases := c.phases[r := p])
  }

  function Commit(c: Cluster, tx: Tx): Cluster {
    c.(applied := c.applied + tx.ran, recorded := c.recorded + tx.rows)
  }

  function Unlock(c: Cluster): Cluster {
    c.(lock := None)
  }

  /** The replica's next statement, succeeding. */
  function Proceed(c: Cluster, versions: seq<string>, r: nat): Cluster
    requires r < |c.phases|
  {
    match c.phases[r]
    case Waiting => if c.lock.None? then Enter(c, r, Checking(0)).(lock := Some(r)) else c
    case Checking(i) =>
      if i >= |versions| then c
      else if versions[i] in c.recorded then Enter(c, r, Checking(i + 1))
      else Enter(c, r, Opening(i))
    case Opening(i) => Enter(c, r, Applying(i, Tx([], [])))
    case Applying(i, tx) =>
      if i >= |versions| then c else Enter(c, r, Recording(i, tx.(ran := tx.ran + [versions[i]])))
    case Recording(i, tx) =>
      if i >= |versions| then c
      else if versions[i] in c.recorded + tx.rows then Unlock(Enter(c, r, Failed))   // primary key violation
      else Enter(c, r, Committing(i, tx.(rows := tx.rows + [versions[i]])))
    case Committing(i, tx) => Commit(Enter(c, r, Checking(i + 1)), tx)
    case _ => c
  }

  function Step(c: Cluster, versions: seq<string>, move: Move): Cluster {
    var r := move.replica;
    if r >= |c.phases| then c
    else
      match move
      case Begin(_) => if c.phases[r] == Idle then Enter(c, r, Waiting) else c
      case Advance(_) => Proceed(c, versions, r)
      case Return(_, unlocked) =>
        if c.phases[r].Checking? && c.phases[r].next >= |versions| then
          var done := Enter(c, r, Finished);
          if unlocked then Unlock(done) else done
        else c
      case Fail(_, landed, unlocked) =>
        if c.phases[r] == Waiting then
          var gone := Enter(c, r, Failed);
          if landed && c.lock.None? then gone.(lock := Some(r)) else gone
        else if Working(c.phases[r]) then
          var written := if landed && c.phases[r].Committing? then Commit(c, c.phases[r].tx) else c;
          var done := Enter(written, r, Failed);
          if unlocked then Unlock(done) else done
        else c
      case Crash(_) =>
        var gone := Enter(c, r, Idle);
        if c.lock == Some(r) then Unlock(gone) else gone
  }

  function Run(c: Cluster, versions: seq<string>, moves: seq<Move>): Cluster {
    if moves == [] then c else Step(Run(c, versions, moves[..|moves| - 1]), versions, moves[|moves| - 1])
  }

  /** Any number of replicas against a database with `recorded` on record. */
  predicate Fresh(c: Cluster, recorded: seq<string>) {
    && c.applied == recorded == c.recorded && c.lock.None?
    && forall r :: 0 <= r < |c.phases| ==> c.phases[r] == Idle
  }

  // ----- The invariant -----

  /** What replica knows at each point of its loop. */
  predicate PhaseOk(versions: seq<string>, initial: seq<string>, recorded: seq<string>, p: Phase) {
    if p.Checking? then p.next <= |versions| && Target(initial, versions[..p.next]) <= recorded
    else if Working(p) then
      && p.next < |versions|
      && Target(initial, versions[..p.next]) <= recorded && versions[p.next] !in recorded
      && (p.Applying? ==> p.tx == Tx([], []))
      && (p.Recording? ==> p.tx == Tx([versions[p.next]], []))
      && (p.Committing? ==> p.tx == Tx([versions[p.next]], [versions[p.next]]))
    else p.Finished? ==> recorded == Target(initial, versions)
  }

  ghost predicate Inv(versions: seq<string>, initial: seq<string>, c: Cluster) {
    && c.applied == c.recorded
    && initial <= c.recorded <= Target(initial, versions)
    && (forall r :: 0 <= r < |c.phases| ==> PhaseOk(versions, initial, c.recorded, c.phases[r]))
    && (forall r :: 0 <= r < |c.phases| && Working(c.phases[r]) ==> c.lock == Some(r))
  }

  /** Between two prefixes of the target there is nothing but the next version. */
  lemma PrefixCases(before: seq<string>, v: string, recorded: seq<string>, all: seq<string>)
    requires before <= recorded <= all && before + [v] <= all
    ensures recorded == before || (v in recorded && before + [v] <= recorded)
  {
    if |recorded| > |before| {
      assert recorded[|before|] == all[|before|] == (before + [v])[|before|];
    }
  }

  /** A replica about to commit version `i` has committed exactly its
      predecessors, so the commit extends the record along the target. */
  lemma CommitFollowsTarget(versions: seq<string>, initial: seq<string>, recorded: seq<string>, i: nat)
    requires i < |versions| && versions[i] !in recorded
    requires Target(initial, versions[..i]) <= recorded <= Target(initial, versions)
    ensures recorded + [versions[i]] == Target(initial, versions[..i + 1]) <= Target(initial, versions)
  {
    TargetSnoc(initial, versions, i);
    TargetGrows(initial, versions, i + 1);
    var before := Target(initial, versions[..i]);
    assert forall v :: v in before ==> v in recorded;
    PrefixCases(before, versions[i], recorded, Target(initial, versions));
  }

  lemma SkipFollowsTarget(versions: seq<string>, initial: seq<string>, recorded: seq<string>, i: nat)
    requires i < |versions| && versions[i] in recorded
    requires Target(initial, versions[..i]) <= recorded <= Target(initial, versions)
    ensures Target(initial, versions[..i + 1]) <= recorded
  {
    TargetSnoc(initial, versions, i);
    TargetGrows(initial, versions, i + 1);
    var before := Target(initial, versions[..i]);
    if versions[i] !in before {
      PrefixCases(before, versions[i], recorded, Target(initial, versions));
    }
  }

  /** Entering a phase, with or without giving up the lock, is safe if the phase
      itself is in order. */
  lemma EnterKeepsInv(versions: seq<string>, initial: seq<string>, c: Cluster, r: nat, p: Phase, lock: Option<nat>)
    requires Inv(versions, initial, c) && r < |c.phases|
    requires PhaseOk(versions, initial, c.recorded, p)
    requires if Working(p) then lock == Some(r) && (c.lock.None? || c.lock == lock)
             else lock == c.lock || c.lock.None? || (lock.None? && c.lock == Some(r))
    ensures Inv(versions, initial, Enter(c, r, p).(lock := lock))
  {
  }

  lemma CommitKeepsInv(versions: seq<string>, initial: seq<string>, c: Cluster, r: nat)
    requires Inv(versions, initial, c) && r < |c.phases| && c.phases[r].Committing?
    ensures var i := c.phases[r].next;
            Inv(versions, initial, Commit(Enter(c, r, Checking(i + 1)), c.phases[r].tx))
  {
    var (i, tx) := (c.phases[r].next, c.phases[r].tx);
    CommitFollowsTarget(versions, initial, c.recorded, i);
    var c' := Commit(Enter(c, r, Checking(i + 1)), tx);
    forall q | 0 <= q < |c'.phases| ensures PhaseOk(versions, initial, c'.recorded, c'.phases[q]) {
      if q != r {
        assert !Working(c.phases[q]);
        assert !c.phases[q].Finished?;
      }
    }
  }

  lemma ProceedKeepsInv(versions: seq<string>, initial: seq<string>, c: Cluster, r: nat)
    requires Inv(versions, initial, c) && r < |c.phases|
    ensures Inv(versions, initial, Proceed(c, versions, r))
  {
    match c.phases[r]
    case Waiting =>
      if c.lock.None? { EnterKeepsInv(versions, initial, c, r, Checking(0), Some(r)); }
    case Checking(i) =>
      if i < |versions| {
        if versions[i] in c.recorded {
          SkipFollowsTarget(versions, initial, c.recorded, i);
          EnterKeepsInv(versions, initial, c, r, Checking(i + 1), c.lock);
        } else {
          EnterKeepsInv(versions, initial, c, r, Opening(i), c.lock);
        }
      }
    case Opening(i) => EnterKeepsInv(versions, initial, c, r, Applying(i, Tx([], [])), c.lock);
    case Applying(i, tx) =>
      EnterKeepsInv(versions, initial, c, r, Recording(i, tx.(ran := tx.ran + [versions[i]])), c.lock);
    case Recording(i, tx) =>
      EnterKeepsInv(versions, initial, c, r, Committing(i, tx.(rows := tx.rows + [versions[i]])), c.lock);
    case Committing(_, _) => CommitKeepsInv(versions, initial, c, r);
    case _ =>
  }

  lemma StepKeepsInv(versions: seq<string>, initial: seq<string>, c: Cluster, move: Move)
    requires Inv(versions, initial, c)
    ensures Inv(versions, initial, Step(c, versions, move))
  {
    var r := move.replica;
    if r < |c.phases| {
      match move
      case Begin(_) =>
      case Advance(_) => ProceedKeepsInv(versions, initial, c, r);
      case Return(_, unlocked) =>
        if c.phases[r].Checking? && c.phases[r].next >= |versions| {
          assert versions[..c.phases[r].next] == versions;
          EnterKeepsInv(versions, initial, c, r, Finished, if unlocked then None else c.lock);
        }
      case Fail(_, landed, unlocked) =>
        if c.phases[r] == Waiting {
          EnterKeepsInv(versions, initial, c, r, Failed, if landed && c.lock.None? then Some(r) else c.lock);
        } else if Working(c.phases[r]) {
          if landed && c.phases[r].Committing? {
            CommitKeepsInv(versions, initial, c, r);
            var written := Commit(Enter(c, r, Checking(c.phases[r].next + 1)), c.phases[r].tx);
            EnterKeepsInv(versions, initial, written, r, Failed, if unlocked then None else c.lock);
            assert written.phases[r := Failed] == c.phases[r := Failed];
          } else {
            EnterKeepsInv(versions, initial, c, r, Failed, if unlocked then None else c.lock);
          }
        }
      case Crash(_) => EnterKeepsInv(versions, initial, c, r, Idle, if c.lock == Some(r) then None else c.lock);
    }
  }

  lemma {:induction false} RunKeepsInv(versions: seq<string>, initial: seq<string>, c: Cluster, moves: seq<Move>)
    requires Inv(versions, initial, c)
    ensures Inv(versions, initial, Run(c, versions, moves))
  {
    if moves != [] {
      RunKeepsInv(versions, initial, c, moves[..|moves| - 1]);
      StepKeepsInv(versions, initial, Run(c, versions, moves[..|moves| - 1]), moves[|moves| - 1]);
    }
  }

  lemma FreshIsOk(versions: seq<string>, initial: seq<string>, c: Cluster)
    requires Fresh(c, initial)
    ensures Inv(versions, initial, c)
  {
    TargetGrows(initial, versions, 0);
  }

  // ----- The theorems -----

  /** Whatever the interleaving, failures and crashes: what has been applied is
      exactly what is on record; it extends the initial record along the missing
      versions in order; nothing is ever applied twice; and a replica that
      returns without error leaves every listed version applied. */
  lemma AppliedIsRecordedIsPrefix(versions: seq<string>, initial: seq<string>, c: Cluster, moves: seq<Move>)
    requires Fresh(c, initial) && NoDuplicates(initial)
    ensures var c' := Run(c, versions, moves);
            && c'.applied == c'.recorded
            && initial <= c'.applied <= initial + Filter(Dedup(versions), MissingFrom(initial))
            && NoDuplicates(c'.applied)
            && (Finished in c'.phases ==> c'.applied == initial + Filter(Dedup(versions), MissingFrom(initial)))
  {
    FreshIsOk(versions, initial, c);
    RunKeepsInv(versions, initial, c, moves);
    TargetMeaning(initial, versions);
    var c' := Run(c, versions, moves);
    if Finished in c'.phases {
      var r :| 0 <= r < |c'.phases| && c'.phases[r] == Finished;
      assert PhaseOk(versions, initial, c'.recorded, c'.phases[r]);
    }
  }

  /** The usual case, a database some way along a list of distinct versions: the
      applied log is always a prefix of the list, and the whole list once any
      replica has returned. */
  lemma AppliedIsPrefixOfList(versions: seq<string>, k: nat, c: Cluster, moves: seq<Move>)
    requires NoDuplicates(versions) && k <= |versions| && Fresh(c, versions[..k])
    ensures var c' := Run(c, versions, moves);
            c'.applied == c'.recorded && c'.applied <= versions && NoDuplicates(c'.applied)
            && (Finished in c'.phases ==> c'.applied == versions)
  {
    DedupFixed(versions);
    TargetFromPrefix(versions, k);
    TargetMeaning(versions[..k], versions);
    AppliedIsRecordedIsPrefix(versions, versions[..k], c, moves);
  }

  /** The lock admits one replica at a time. */
  lemma OneReplicaWorks(versions: seq<string>, initial: seq<string>, c: Cluster, moves: seq<Move>, q: nat, r: nat)
    requires Fresh(c, initial) && q < |c.phases| && r < |c.phases|
    ensures var c' := Run(c, versions, moves);
            && |c'.phases| == |c.phases|
            && (Working(c'.phases[q]) && Working(c'.phases[r]) ==> q == r)
  {
    FreshIsOk(versions, initial, c);
    RunKeepsInv(versions, initial, c, moves);
    PhasesKept(c, versions, moves);
  }

  lemma {:induction false} PhasesKept(c: Cluster, versions: seq<string>, moves: seq<Move>)
    ensures |Run(c, versions, moves).phases| == |c.phases|
  {
    if moves != [] { PhasesKept(c, versions, moves[..|moves| - 1]); }
  }

  /** Recording a version never runs into the table's primary key, and its SQL
      never runs a second time. */
  lemma NothingRunsTwice(versions: seq<string>, initial: seq<string>, c: Cluster, moves: seq<Move>, r: nat)
    requires Fresh(c, initial) && r < |Run(c, versions, moves).phases|
    requires var p := Run(c, versions, moves).phases[r]; p.Applying? || p.Recording?
    ensures var c' := Run(c, versions, moves);
            var p := c'.phases[r];
            p.next < |versions| && versions[p.next] !in c'.applied && versions[p.next] !in c'.recorded + p.tx.rows
  {
    FreshIsOk(versions, initial, c);
    RunKeepsInv(versions, initial, c, moves);
    var c' := Run(c, versions, moves);
    assert PhaseOk(versions, initial, c'.recorded, c'.phases[r]);
  }

  lemma {:induction false} RunConcat(c: Cluster, versions: seq<string>, first: seq<Move>, rest: seq<Move>)
    ensures Run(c, versions, first + rest) == Run(Run(c, versions, first), versions, rest)
  {
    if rest == [] {
      assert first + rest == first;
    } else {
      RunConcat(c, versions, first, rest[..|rest| - 1]);
      assert (first + rest)[..|first + rest| - 1] == first + rest[..|rest| - 1];
    }
  }

  lemma {:induction false} NothingUnapplied(c: Cluster, versions: seq<string>, moves: seq<Move>)
    ensures c.recorded <= Run(c, versions, moves).recorded
  {
    if moves != [] {
      NothingUnapplied(c, versions, moves[..|moves| - 1]);
    }
  }

  /** Once one replica has returned without error, nothing any replica does
      changes the database again. */
  lemma RerunsChangeNothing(
    versions: seq<string>, initial: seq<string>, c: Cluster, first: seq<Move>, rest: seq<Move>)
    requires Fresh(c, initial) && Finished in Run(c, versions, first).phases
    ensures Run(c, versions, first + rest).applied == Run(c, versions, first).applied
    ensures Run(c, versions, first + rest).recorded == Run(c, versions, first).recorded
  {
    FreshIsOk(versions, initial, c);
    RunKeepsInv(versions, initial, c, first);
    var c' := Run(c, versions, first);
    var r :| 0 <= r < |c'.phases| && c'.phases[r] == Finished;
    assert PhaseOk(versions, initial, c'.recorded, c'.phases[r]);
    RunKeepsInv(versions, initial, c', rest);
    NothingUnapplied(c', versions, rest);
    RunConcat(c, versions, first, rest);
  }

  // ----- Progress -----

  /** Moves of one replica. */
  predicate Own(moves: seq<Move>, r: nat) {
    forall k :: 0 <= k < |moves| ==> moves[k].replica == r
  }

  /** Moves of one replica that neither fails nor crashes. */
  predicate Undisturbed(moves: seq<Move>, r: nat) {
    forall k :: 0 <= k < |moves| ==> moves[k] == Begin(r) || moves[k] == Advance(r) || moves[k] == Return(r, true)
  }

  lemma RunOne(c: Cluster, versions: seq<string>, move: Move, rest: seq<Move>)
    ensures Run(c, versions, [move] + rest) == Run(Step(c, versions, move), versions, rest)
  {
    assert [move][..0] == [];
    assert Run(c, versions, [move]) == Step(c, versions, move);
    RunConcat(c, versions, [move], rest);
  }

  /** What a working replica has left to do. */
  function Left(versions: seq<string>, p: Phase): int
    requires Working(p)
  {
    5 * (|versions| - p.next)
    + (if p.Checking? then 4 else if p.Opening? then 3 else if p.Applying? then 2 else if p.Recording? then 1 else 0)
  }

  lemma AdvanceGetsOn(versions: seq<string>, initial: seq<string>, c: Cluster, r: nat)
    requires Inv(versions, initial, c) && r < |c.phases| && Working(c.phases[r])
    requires c.phases[r] != Checking(|versions|)
    ensures var p := Step(c, versions, Advance(r)).phases[r];
            Working(p) && 0 <= Left(versions, p) < Left(versions, c.phases[r])
  {
    hide Target;
    assert PhaseOk(versions, initial, c.recorded, c.phases[r]);
  }

  lemma {:induction false} WorkingReplicaReachesEnd(
    versions: seq<string>, initial: seq<string>, c: Cluster, r: nat) returns (moves: seq<Move>)
    requires Inv(versions, initial, c) && r < |c.phases| && Working(c.phases[r])
    ensures Undisturbed(moves, r)
    ensures var c' := Run(c, versions, moves);
            Inv(versions, initial, c') && |c'.phases| == |c.phases| && c'.phases[r] == Checking(|versions|)
    decreases Left(versions, c.phases[r])
  {
    if c.phases[r] == Checking(|versions|) {
      moves := [];
    } else {
      AdvanceGetsOn(versions, initial, c, r);
      var c' := Step(c, versions, Advance(r));
      StepKeepsInv(versions, initial, c, Advance(r));
      var rest := WorkingReplicaReachesEnd(versions, initial, c', r);
      RunOne(c, versions, Advance(r), rest);
      moves := [Advance(r)] + rest;
    }
  }

  /** Anywhere in the loop, or about to enter it with the lock free. */
  predicate Ready(c: Cluster, r: nat)
    requires r < |c.phases|
  {
    Working(c.phases[r]) || (c.lock.None? && (c.phases[r] == Idle || c.phases[r] == Waiting))
  }

  ghost predicate Complete(versions: seq<string>, initial: seq<string>, c: Cluster, r: nat) {
    && r < |c.phases| && c.phases[r] == Finished && c.lock.None?
    && c.applied == c.recorded == Target(initial, versions)
  }

  lemma LastCheckReturns(versions: seq<string>, initial: seq<string>, c: Cluster, r: nat)
    requires Inv(versions, initial, c) && r < |c.phases| && c.phases[r] == Checking(|versions|)
    ensures Complete(versions, initial, Step(c, versions, Return(r, true)), r)
  {
    StepKeepsInv(versions, initial, c, Return(r, true));
    var c' := Step(c, versions, Return(r, true));
    assert PhaseOk(versions, initial, c'.recorded, c'.phases[r]);
  }

  /** From every such point, whatever earlier crashes and failures have left in
      the database, a replica whose statements succeed applies what is missing,
      returns, and leaves the lock free. */
  lemma {:induction false} UndisturbedReplicaFinishes(
    versions: seq<string>, initial: seq<string>, c: Cluster, r: nat) returns (moves: seq<Move>)
    requires Inv(versions, initial, c) && r < |c.phases| && Ready(c, r)
    ensures Undisturbed(moves, r)
    ensures Complete(versions, initial, Run(c, versions, moves), r)
    decreases if Working(c.phases[r]) then 0 else if c.phases[r] == Waiting then 1 else 2
  {
    if Working(c.phases[r]) {
      var loop := WorkingReplicaReachesEnd(versions, initial, c, r);
      LastCheckReturns(versions, initial, Run(c, versions, loop), r);
      RunConcat(c, versions, loop, [Return(r, true)]);
      RunOne(Run(c, versions, loop), versions, Return(r, true), []);
      assert [Return(r, true)] + [] == [Return(r, true)];
      moves := loop + [Return(r, true)];
    } else {
      var move := if c.phases[r] == Waiting then Advance(r) else Begin(r);
      StepKeepsInv(versions, initial, c, move);
      var rest := UndisturbedReplicaFinishes(versions, initial, Step(c, versions, move), r);
      RunOne(c, versions, move, rest);
      moves := [move] + rest;
    }
  }

  /** The lock is free, or ends with this replica's own connection. */
  predicate Reachable(c: Cluster, r: nat) {
    c.lock.None? || c.lock == Some(r)
  }

  /** Restarting first if need be, any replica gets there from any state. */
  lemma RestartedReplicaFinishes(versions: seq<string>, initial: seq<string>, c: Cluster, r: nat)
    returns (moves: seq<Move>)
    requires Inv(versions, initial, c) && r < |c.phases| && Reachable(c, r)
    ensures Own(moves, r) && Complete(versions, initial, Run(c, versions, moves), r)
  {
    StepKeepsInv(versions, initial, c, Crash(r));
    var rest := UndisturbedReplicaFinishes(versions, initial, Step(c, versions, Crash(r)), r);
    RunOne(c, versions, Crash(r), rest);
    moves := [Crash(r)] + rest;
  }

  /** While another connection holds the lock a replica does not get past it. */
  lemma {:induction false} LockedOutReplicaWaits(
    versions: seq<string>, initial: seq<string>, c: Cluster, r: nat, moves: seq<Move>)
    requires Inv(versions, initial, c) && r < |c.phases| && !Reachable(c, r) && Own(moves, r)
    ensures var c' := Run(c, versions, moves);
            c'.lock == c.lock && c'.applied == c.applied && c'.recorded == c.recorded
    ensures var c' := Run(c, versions, moves);
            |c'.phases| == |c.phases| && !Working(c'.phases[r])
    ensures var c' := Run(c, versions, moves);
            c'.phases[r] == Finished ==> c.phases[r] == Finished
  {
    hide Target;
    if moves != [] {
      LockedOutReplicaWaits(versions, initial, c, r, moves[..|moves| - 1]);
    }
  }

  predicate Returned(c: Cluster, r: nat) {
    r < |c.phases| && c.phases[r] == Finished
  }

  /** A replica's own moves can bring it to a return without error
      exactly when no other connection holds the lock. */
  lemma FinishesAloneIffLockFree(versions: seq<string>, initial: seq<string>, c: Cluster, r: nat)
    requires Inv(versions, initial, c) && r < |c.phases| && !Returned(c, r)
    ensures (exists moves :: Own(moves, r) && Returned(Run(c, versions, moves), r)) <==> Reachable(c, r)
  {
    if Reachable(c, r) {
      var moves := RestartedReplicaFinishes(versions, initial, c, r);
      assert Own(moves, r);
    } else {
      forall moves | Own(moves, r) ensures !Returned(Run(c, versions, moves), r) {
        LockedOutReplicaWaits(versions, initial, c, r, moves);
      }
    }
  }

  /** The replica gives up, returns from the end of its loop, or goes down. */
  predicate Leaves(c: Cluster, versions: seq<string>, move: Move) {
    match move
    case Fail(_, _, _) => true
    case Return(r, _) => r < |c.phases| && c.phases[r].Checking? && c.phases[r].next >= |versions|
    case Crash(_) => true
    case _ => false
  }

  predicate LetsGo(move: Move) {
    match move
    case Fail(_, _, unlocked) => unlocked
    case Return(_, unlocked) => unlocked
    case _ => move.Crash?
  }

  /** When the replica in the loop leaves it, any other one can finish the work
      exactly when the unlock got through or the connection went down. */
  lemma OthersTakeOverIff(versions: seq<string>, initial: seq<string>, c: Cluster, move: Move, other: nat)
    requires Inv(versions, initial, c) && move.replica < |c.phases| && Working(c.phases[move.replica])
    requires Leaves(c, versions, move) && other < |c.phases| && other != move.replica && !Returned(c, other)
    ensures (exists moves :: Own(moves, other) && Returned(Run(Step(c, versions, move), versions, moves), other))
            <==> LetsGo(move)
  {
    hide Target, Run;
    StepKeepsInv(versions, initial, c, move);
    FinishesAloneIffLockFree(versions, initial, Step(c, versions, move), other);
  }
}
