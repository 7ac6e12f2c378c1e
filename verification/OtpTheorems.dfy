/** What holds of one-time codes after every interleaving of calls. */
module OtpTheorems {
  import opened Wrappers
  import opened Sequences
  import opened OtpModel
  import opened OtpProtocol

  predicate IsIssue(e: Event) {
    e.Issued?
  }

  predicate IsPasswordSet(e: Event) {
    e.PasswordSet?
  }

  predicate IsReset(e: Event) {
    Success(e, ResetFlow)
  }

  predicate IsVerification(e: Event) {
    Success(e, VerifyFlow)
  }

  function Count(log: seq<Event>, p: Event -> bool): nat {
    |Filter(log, p)|
  }

  lemma AccountedPrefix(u: User, log: seq<Event>)
    requires log != [] && Accounted(u, log)
    ensures Accounted(u, log[..|log| - 1])
    ensures Justified(Rebuilt(u, log[..|log| - 1]), log[|log| - 1])
  {
    var rest := log[..|log| - 1];
    forall k | 0 <= k < |rest| ensures Justified(Rebuilt(u, rest[..k]), rest[k]) {
      assert rest[..k] == log[..k];
    }
  }

  // ----- Conservation of reset codes -----

  lemma {:induction false} CodesConserved(u: User, log: seq<Event>)
    requires Accounted(u, log)
    ensures Count(log, IsReset) + (if Rebuilt(u, log).resetHash.Some? then 1 else 0)
            <= Count(log, IsIssue) + (if u.resetHash.Some? then 1 else 0)
  {
    if log != [] {
      AccountedPrefix(u, log);
      CodesConserved(u, log[..|log| - 1]);
    }
  }

  /** Successful resets, plus the code still outstanding, never outnumber the
      codes there have been. */
  lemma ResetsNeverExceedCodes(u: User, moves: seq<Move>)
    ensures var m := Run(Start(u), moves);
            Count(m.log, IsReset) + (if m.user.resetHash.Some? then 1 else 0)
            <= Count(m.log, IsIssue) + (if u.resetHash.Some? then 1 else 0)
  {
    EveryFieldFollowsItsOwnEvents(u, moves);
    CodesConserved(u, Run(Start(u), moves).log);
  }

  /** Nothing between `k` and `j` replaced or spent the reset code. */
  ghost predicate Quiet(log: seq<Event>, k: int, j: int)
    requires -1 <= k && j <= |log|
  {
    forall i :: k < i < j ==> !log[i].Issued? && !Success(log[i], ResetFlow)
  }

  /** The reset code in force is the last one issued and not yet spent, or the
      one the account came with. */
  lemma {:induction false} CodeInForce(u: User, log: seq<Event>) returns (k: int)
    ensures -1 <= k < |log| && Quiet(log, k, |log|)
    ensures var code := ResetCodeAfter((u.resetHash, u.resetExpiresAt), log);
            if k == -1 then code == (u.resetHash, u.resetExpiresAt)
            else if log[k].Issued? then code == (Some(log[k].hash), Some(log[k].expires))
            else Success(log[k], ResetFlow) && code == (None, None)
  {
    if log == [] {
      k := -1;
    } else {
      var e := log[|log| - 1];
      if e.Issued? || Success(e, ResetFlow) {
        k := |log| - 1;
      } else {
        k := CodeInForce(u, log[..|log| - 1]);
      }
    }
  }

  /** Which code a successful reset spent: `k` is the position of its issue, or
      -1 for the code the account came with. */
  ghost predicate Spent(u: User, log: seq<Event>, k: int, j: nat)
    requires j < |log| && Success(log[j], ResetFlow)
  {
    && -1 <= k < j && Quiet(log, k, j)
    && if k == -1 then
         u.resetHash == Some(log[j].guess) && u.resetExpiresAt.Some? && log[j].stamp < u.resetExpiresAt.value
       else log[k].Issued? && log[k].hash == log[j].guess && log[j].stamp < log[k].expires
  }

  lemma SpendsTheCodeInForce(u: User, log: seq<Event>, j: nat) returns (k: int)
    requires Accounted(u, log) && j < |log| && Success(log[j], ResetFlow)
    ensures Spent(u, log, k, j)
  {
    k := CodeInForce(u, log[..j]);
    assert Justified(Rebuilt(u, log[..j]), log[j]);
  }

  /** A reset succeeds only with the latest code, unexpired and unspent; so no
      code is spent twice, and a later request voids an earlier code. */
  lemma EachResetSpendsTheLatestCode(u: User, moves: seq<Move>, j: nat)
    requires j < |Run(Start(u), moves).log| && Success(Run(Start(u), moves).log[j], ResetFlow)
    ensures exists k :: Spent(u, Run(Start(u), moves).log, k, j)
  {
    EveryFieldFollowsItsOwnEvents(u, moves);
    var k := SpendsTheCodeInForce(u, Run(Start(u), moves).log, j);
  }

  /** Two successful resets spend different codes: the later one's was issued
      after the earlier one succeeded. */
  lemma NoCodeSpentTwice(u: User, log: seq<Event>, i: nat, j: nat, k: int, l: int)
    requires i < j < |log| && Success(log[i], ResetFlow) && Success(log[j], ResetFlow)
    requires Spent(u, log, k, i) && Spent(u, log, l, j)
    ensures k < i < l < j
  {
    assert l != i;
    assert forall x :: l < x < j ==> !Success(log[x], ResetFlow);
  }

  /** A freshly issued code survives everything but a newer code or its own
      use; in particular the password write of a reset that consumed an earlier
      code before this one was issued. */
  lemma IssuedCodeSurvives(u: User, moves: seq<Move>, k: nat)
    requires k < |Run(Start(u), moves).log| && Run(Start(u), moves).log[k].Issued?
    requires Quiet(Run(Start(u), moves).log, k, |Run(Start(u), moves).log|)
    ensures var m := Run(Start(u), moves);
            m.user.resetHash == Some(m.log[k].hash) && m.user.resetExpiresAt == Some(m.log[k].expires)
  {
    EveryFieldFollowsItsOwnEvents(u, moves);
    var log := Run(Start(u), moves).log;
    var k' := CodeInForce(u, log);
    assert !(k < k') && !(k' < k);
  }

  // ----- Verification -----

  lemma {:induction false} VerificationOnLog(u: User, log: seq<Event>)
    requires Accounted(u, log)
    ensures var after := Rebuilt(u, log);
            if Count(log, IsVerification) == 0
            then after.verificationHash == u.verificationHash && after.verificationExpiresAt == u.verificationExpiresAt
                 && after.emailVerified == u.emailVerified
            else
              && Count(log, IsVerification) == 1 && u.verificationHash.Some?
              && after.emailVerified && after.verificationHash.None?
  {
    if log != [] {
      AccountedPrefix(u, log);
      VerificationOnLog(u, log[..|log| - 1]);
    }
  }

  /** The code sent at sign-up verifies the address at most once, and the address
      counts as verified exactly when it has. */
  lemma VerifiedAtMostOnce(u: User, moves: seq<Move>)
    requires !u.emailVerified
    ensures var m := Run(Start(u), moves);
            && Count(m.log, IsVerification) <= (if u.verificationHash.Some? then 1 else 0)
            && (m.user.emailVerified <==> Count(m.log, IsVerification) == 1)
  {
    EveryFieldFollowsItsOwnEvents(u, moves);
    VerificationOnLog(u, Run(Start(u), moves).log);
  }

  /** What verifies is the sign-up code itself, before it expires. */
  lemma VerifiesWithTheSignUpCode(u: User, moves: seq<Move>, j: nat)
    requires j < |Run(Start(u), moves).log| && Success(Run(Start(u), moves).log[j], VerifyFlow)
    ensures var e := Run(Start(u), moves).log[j];
            && u.verificationHash == Some(e.guess)
            && u.verificationExpiresAt.Some? && e.stamp < u.verificationExpiresAt.value
  {
    EveryFieldFollowsItsOwnEvents(u, moves);
    var log := Run(Start(u), moves).log;
    assert Justified(Rebuilt(u, log[..j]), log[j]);
    AccountedTake(u, log, j);
    VerificationOnLog(u, log[..j]);
  }

  lemma AccountedTake(u: User, log: seq<Event>, n: nat)
    requires n <= |log| && Accounted(u, log)
    ensures Accounted(u, log[..n])
  {
    forall k | 0 <= k < n ensures Justified(Rebuilt(u, log[..n][..k]), log[..n][k]) {
      assert log[..n][..k] == log[..k];
    }
  }

  // ----- Passwords -----

  lemma {:induction false} LastPasswordSet(initial: string, log: seq<Event>) returns (k: int)
    ensures -1 <= k < |log| && (forall i :: k < i < |log| ==> !log[i].PasswordSet?)
    ensures if k == -1 then PasswordAfter(initial, log) == initial
            else log[k].PasswordSet? && PasswordAfter(initial, log) == log[k].hash
  {
    if log == [] {
      k := -1;
    } else if log[|log| - 1].PasswordSet? {
      k := |log| - 1;
    } else {
      k := LastPasswordSet(initial, log[..|log| - 1]);
    }
  }

  /** The write at `k` is the last, stores the password its own call asked for,
      and follows the match of that call's code. */
  ghost predicate PasswordFrom(m: Machine, k: int) {
    && 0 <= k < |m.log| && m.log[k].PasswordSet? && m.log[k].hash == m.user.passwordHash
    && (forall i :: k < i < |m.log| ==> !m.log[i].PasswordSet?)
    && Entitled(m.log[..k], m.log[k].task)
    && m.log[k].task < |m.tasks|
    && m.tasks[m.log[k].task].call.CompleteReset?
    && m.tasks[m.log[k].task].call.newHash == Some(m.user.passwordHash)
  }

  /** The password is the initial one, or the one of the last committed reset
      write, whose caller had presented a matching code. */
  lemma PasswordHasProvenance(u: User, moves: seq<Move>)
    ensures var m := Run(Start(u), moves);
            if Count(m.log, IsPasswordSet) == 0 then m.user.passwordHash == u.passwordHash
            else exists k :: PasswordFrom(m, k)
  {
    EveryFieldFollowsItsOwnEvents(u, moves);
    RunKeepsTasks(u, moves);
    var m := Run(Start(u), moves);
    var k := LastPasswordSet(u.passwordHash, m.log);
    if k == -1 {
      NoneCounted(m.log, IsPasswordSet);
    } else {
      FilterMembers(m.log, IsPasswordSet, m.log[k]);
      assert Attributed(m.tasks, m.log[k]);
      assert PasswordFrom(m, k);
    }
  }

  lemma {:induction false} NoneCounted(log: seq<Event>, p: Event -> bool)
    requires forall i :: 0 <= i < |log| ==> !p(log[i])
    ensures Count(log, p) == 0
  {
    if log != [] { NoneCounted(log[..|log| - 1], p); }
  }

  function TasksOf(log: seq<Event>, p: Event -> bool): set<nat> {
    if log == [] then {}
    else TasksOf(log[..|log| - 1], p) + (if p(log[|log| - 1]) then {log[|log| - 1].task} else {})
  }

  lemma {:induction false} TasksOfMeaning(log: seq<Event>, p: Event -> bool)
    ensures |TasksOf(log, p)| <= Count(log, p)
    ensures forall t :: t in TasksOf(log, p) <==> exists k :: 0 <= k < |log| && p(log[k]) && log[k].task == t
  {
    if log != [] {
      TasksOfMeaning(log[..|log| - 1], p);
      assert log == log[..|log| - 1] + [log[|log| - 1]];
    }
  }

  lemma {:induction false} OneEventPerTask(log: seq<Event>, p: Event -> bool)
    requires forall j, k :: 0 <= j < k < |log| && p(log[j]) && p(log[k]) ==> log[j].task != log[k].task
    ensures |TasksOf(log, p)| == Count(log, p)
  {
    if log != [] {
      OneEventPerTask(log[..|log| - 1], p);
      TasksOfMeaning(log[..|log| - 1], p);
    }
  }

  lemma {:induction false} SubsetIsSmaller<T>(a: set<T>, b: set<T>)
    requires a <= b
    ensures |a| <= |b|
  {
    if a != {} {
      var x :| x in a;
      SubsetIsSmaller(a - {x}, b - {x});
    }
  }

  ghost predicate WritesEntitled(log: seq<Event>) {
    && (forall k :: 0 <= k < |log| && log[k].PasswordSet? ==> Entitled(log[..k], log[k].task))
    && (forall j, k :: 0 <= j < k < |log| && log[j].PasswordSet? && log[k].PasswordSet? ==> log[j].task != log[k].task)
  }

  lemma WriterHasReset(log: seq<Event>, t: nat)
    requires WritesEntitled(log) && t in TasksOf(log, IsPasswordSet)
    ensures t in TasksOf(log, IsReset)
  {
    TasksOfMeaning(log, IsPasswordSet);
    TasksOfMeaning(log, IsReset);
    var k :| 0 <= k < |log| && IsPasswordSet(log[k]) && log[k].task == t;
    var j :| 0 <= j < k && Success(log[..k][j], ResetFlow) && log[..k][j].task == t;
    assert IsReset(log[j]);
  }

  lemma EntitledWritesCount(log: seq<Event>)
    requires WritesEntitled(log)
    ensures Count(log, IsPasswordSet) <= Count(log, IsReset)
  {
    OneEventPerTask(log, IsPasswordSet);
    TasksOfMeaning(log, IsReset);
    forall t | t in TasksOf(log, IsPasswordSet) ensures t in TasksOf(log, IsReset) {
      WriterHasReset(log, t);
    }
    SubsetIsSmaller(TasksOf(log, IsPasswordSet), TasksOf(log, IsReset));
  }

  /** Every password write is paid for by its own match: writes never outnumber
      matches, however the calls interleave. */
  lemma PasswordWritesNeverExceedResets(u: User, moves: seq<Move>)
    ensures var log := Run(Start(u), moves).log;
            Count(log, IsPasswordSet) <= Count(log, IsReset)
  {
    RunKeepsTasks(u, moves);
    var log := Run(Start(u), moves).log;
    assert WritesEntitled(log) by {
      forall j, k | 0 <= j < k < |log| && log[j].PasswordSet? && log[k].PasswordSet?
        ensures log[j].task != log[k].task
      {
        assert !Success(log[j], ResetFlow);
      }
    }
    EntitledWritesCount(log);
  }

  /** What the caller is told, given the outcome of the consumption. */
  function Told(call: Call, outcome: Outcome): Option<AuthError>
    requires !call.RequestReset?
  {
    if outcome != Matched then Verdict(outcome)
    else if call.CompleteReset? && call.newHash.None? then Some(InvalidUserInput)
    else None
  }

  /** A completion that nothing interrupts does what the service method does and
      says what it says: it weighs the guess once, tells the caller the verdict,
      and sets the password exactly when it reports no error. */
  lemma CompletionAlone(m: Machine, guess: string, newHash: Option<string>, now: int)
    ensures var (i, call) := (|m.tasks|, CompleteReset(guess, newHash));
            var m' := Run(m, [Begin(call, now), Advance(i), Advance(i)]);
            var (user, failure) := CompletedReset(m.user, guess, newHash, now);
            && m'.user == user
            && |m'.log| > |m.log| && m'.log[..|m.log|] == m.log
            && var e := m'.log[|m.log|];
               && e.Consumed? && e.task == i && Told(call, e.outcome) == failure
               && m'.log[|m.log| + 1..] == if failure.None? then [PasswordSet(i, newHash.value)] else []
  {
    var i := |m.tasks|;
    RunThree(m, Begin(CompleteReset(guess, newHash), now), Advance(i), Advance(i));
    CompletionSteps(m, guess, newHash, now);
  }

  lemma RunThree(m: Machine, a: Move, b: Move, c: Move)
    ensures Run(m, [a, b, c]) == Step(Step(Step(m, a), b), c)
  {
    hide Step;
    assert [a, b, c][..2] == [a, b] && [a, b][..1] == [a] && [a][..0] == [];
    assert Run(m, [a]) == Step(m, a);
    assert Run(m, [a, b]) == Step(Step(m, a), b);
  }

  lemma CompletionSteps(m: Machine, guess: string, newHash: Option<string>, now: int)
    ensures var (i, call) := (|m.tasks|, CompleteReset(guess, newHash));
            var m' := Step(Step(Step(m, Begin(call, now)), Advance(i)), Advance(i));
            var (user, failure) := CompletedReset(m.user, guess, newHash, now);
            var (_, outcome) := Consume(m.user, ResetFlow, guess, now);
            && m'.user == user && Told(call, outcome) == failure
            && m'.log == m.log + [Consumed(i, ResetFlow, guess, now, outcome)]
                         + (if failure.None? then [PasswordSet(i, newHash.value)] else [])
  {
    hide Consume;
  }
}
