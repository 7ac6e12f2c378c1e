/** When a code works: the exact condition for a match, on one account row, after
    any interleaving of calls, and for the two flows from issue to effect. */
module OtpLiveness {
  import opened Wrappers
  import opened Sequences
  import opened OtpModel
  import opened OtpWindow
  import opened OtpProtocol
  import opened OtpTheorems
  import opened OtpGuessing
  import OtpServices

  // ----- One row -----

  predicate LockRuns(u: User, now: int) {
    match u.lockedUntil
    case None => false
    case Some(until) => now < until
  }

  /** A code of this hash is on the row for this flow and has not expired. */
  predicate CodeStands(u: User, flow: Flow, guessHash: string, now: int) {
    match flow
    case VerifyFlow =>
      u.verificationHash == Some(guessHash) && u.verificationExpiresAt.Some? && now < u.verificationExpiresAt.value
    case ResetFlow => u.resetHash == Some(guessHash) && u.resetExpiresAt.Some? && now < u.resetExpiresAt.value
  }

  /** A guess is answered by the lock alone while it runs; otherwise it succeeds
      exactly when the row has that very code, unexpired, whatever the counter. */
  lemma ConsumeAnswers(u: User, flow: Flow, guessHash: string, now: int)
    ensures var (_, outcome) := Consume(u, flow, guessHash, now);
            && (outcome == Matched <==> !LockRuns(u, now) && CodeStands(u, flow, guessHash, now))
            && (outcome == LockedOut <==> LockRuns(u, now))
            && (Verdict(outcome).None? <==> outcome == Matched)
            && (Verdict(outcome) == Some(TooManyAttempts) <==> outcome == LockedOut)
            && (Verdict(outcome) == Some(InvalidOrExpiredCode) <==> outcome == Wrong)
  {
  }

  /** What the row looks like afterwards. A success spends the code and clears the
      counter and the lock; a miss counts, and from the fifth on locks for fifteen
      minutes; nothing else is ever touched. */
  lemma ConsumeEffect(u: User, flow: Flow, guessHash: string, now: int)
    ensures var (u', outcome) := Consume(u, flow, guessHash, now);
            match outcome
            case LockedOut => u' == u
            case Wrong =>
              && u'.failedAttempts == u.failedAttempts + 1
              && u'.lockedUntil == (if u.failedAttempts >= 4 then Some(now + 15 * 60) else u.lockedUntil)
              && u' == u.(failedAttempts := u'.failedAttempts, lockedUntil := u'.lockedUntil)
            case Matched =>
              && u'.failedAttempts == 0 && u'.lockedUntil.None? && !CodeStands(u', flow, guessHash, now)
              && (flow == VerifyFlow ==>
                    u' == u.(emailVerified := true, verificationHash := None, verificationExpiresAt := None,
                             failedAttempts := 0, lockedUntil := None))
              && (flow == ResetFlow ==>
                    u' == u.(resetHash := None, resetExpiresAt := None, failedAttempts := 0, lockedUntil := None))
  {
  }

  // ----- Any interleaving -----

  /** Position `k` of the log, or -1 for the account's own, is where the reset code
      in force before `j` came from, and the guess at `j` is that code in time. */
  ghost predicate Presents(u: User, log: seq<Event>, k: int, j: nat)
    requires j < |log| && log[j].Consumed?
  {
    && -1 <= k < j && Quiet(log, k, j)
    && if k == -1 then
         u.resetHash == Some(log[j].guess) && u.resetExpiresAt.Some? && log[j].stamp < u.resetExpiresAt.value
       else log[k].Issued? && log[k].hash == log[j].guess && log[j].stamp < log[k].expires
  }

  lemma PresentsIffStands(u: User, log: seq<Event>, j: nat)
    requires j < |log| && log[j].Consumed?
    ensures CodeStands(Rebuilt(u, log[..j]), ResetFlow, log[j].guess, log[j].stamp) <==>
              exists k :: Presents(u, log, k, j)
  {
    hide CounterAfter, VerificationAfter, PasswordAfter, ResetCodeAfter;
    var k := CodeInForce(u, log[..j]);
    assert Quiet(log, k, j);
    if CodeStands(Rebuilt(u, log[..j]), ResetFlow, log[j].guess, log[j].stamp) {
      assert Presents(u, log, k, j);
    }
    if l :| Presents(u, log, l, j) {
      OneCodeInForce(log, k, l, j);
    }
  }

  /** Two positions after which nothing happened to the code are the same, if each
      is where something did. */
  lemma OneCodeInForce(log: seq<Event>, k: int, l: int, j: nat)
    requires j <= |log| && -1 <= k < j && -1 <= l < j && Quiet(log, k, j) && Quiet(log, l, j)
    requires k >= 0 ==> log[k].Issued? || Success(log[k], ResetFlow)
    requires l >= 0 ==> log[l].Issued? || Success(log[l], ResetFlow)
    ensures k == l
  {
    assert k > l ==> k >= 0;
    assert l > k ==> l >= 0;
  }

  /** After every interleaving a reset guess succeeds exactly when no lock runs at
      its time and it is the latest code, unspent and unexpired. */
  lemma ResetSucceedsIff(u: User, moves: seq<Move>, log: seq<Event>, j: nat)
    requires log == Run(Start(u), moves).log && j < |log| && log[j].Consumed? && log[j].flow == ResetFlow
    ensures log[j].outcome == Matched <==>
              !LockRuns(Rebuilt(u, log[..j]), log[j].stamp) && exists k :: Presents(u, log, k, j)
  {
    EveryFieldFollowsItsOwnEvents(u, moves);
    assert Justified(Rebuilt(u, log[..j]), log[j]);
    hide Rebuilt, Consume;
    ConsumeAnswers(Rebuilt(u, log[..j]), ResetFlow, log[j].guess, log[j].stamp);
    PresentsIffStands(u, log, j);
  }

  /** And a verification guess exactly when no lock runs, nothing has verified
      before, and it is the account's own code, unexpired. */
  lemma VerificationSucceedsIff(u: User, moves: seq<Move>, log: seq<Event>, j: nat)
    requires log == Run(Start(u), moves).log && j < |log| && log[j].Consumed? && log[j].flow == VerifyFlow
    ensures log[j].outcome == Matched <==>
              && !LockRuns(Rebuilt(u, log[..j]), log[j].stamp)
              && Count(log[..j], IsVerification) == 0 && CodeStands(u, VerifyFlow, log[j].guess, log[j].stamp)
  {
    EveryFieldFollowsItsOwnEvents(u, moves);
    assert Justified(Rebuilt(u, log[..j]), log[j]);
    AccountedTake(u, log, j);
    VerificationOnLog(u, log[..j]);
    hide Rebuilt, Consume, Count;
    ConsumeAnswers(Rebuilt(u, log[..j]), VerifyFlow, log[j].guess, log[j].stamp);
  }

  // ----- From issue to effect -----

  /** After any run: whoever presents the latest reset code in time, on an account
      no lock is running on, and is not interrupted, sets the password, however
      many wrong guesses came before. */
  lemma LatestCodeResets(u: User, moves: seq<Move>, k: nat, newHash: string, now: int)
    requires k < |Run(Start(u), moves).log| && Run(Start(u), moves).log[k].Issued?
    requires Quiet(Run(Start(u), moves).log, k, |Run(Start(u), moves).log|)
    requires now < Run(Start(u), moves).log[k].expires && !LockRuns(Run(Start(u), moves).user, now)
    ensures var m := Run(Start(u), moves);
            var (i, call) := (|m.tasks|, CompleteReset(m.log[k].hash, Some(newHash)));
            var m' := Run(m, [Begin(call, now), Advance(i), Advance(i)]);
            m'.user.passwordHash == newHash && m'.user.resetHash.None?
  {
    var m := Run(Start(u), moves);
    IssuedCodeSurvives(u, moves, k);
    hide Run;
    ConsumeAnswers(m.user, ResetFlow, m.log[k].hash, now);
    ConsumeEffect(m.user, ResetFlow, m.log[k].hash, now);
    CompletionAlone(m, m.log[k].hash, Some(newHash), now);
  }

  lemma VerifyAlone(m: Machine, guess: string, now: int)
    ensures Run(m, [Begin(VerifyEmail(guess), now), Advance(|m.tasks|)]).user
            == Consume(m.user, VerifyFlow, guess, now).0
  {
    hide Consume;
    var (a, b) := (Begin(VerifyEmail(guess), now), Advance(|m.tasks|));
    assert [a, b][..1] == [a] && [a][..0] == [];
    assert Run(m, [a]) == Step(m, a);
    assert Run(m, [a, b]) == Step(Step(m, a), b);
  }

  /** After any run of a new account: the code it was signed up with verifies it,
      unless it has expired or a lock is running. */
  lemma SignUpCodeVerifies(
    id: string, identifier: string, name: string, password: string, code: string, expires: int,
    moves: seq<Move>, now: int)
    requires var u := OtpServices.NewRequester(id, identifier, name, password, code, expires);
             !Run(Start(u), moves).user.emailVerified && now < expires && !LockRuns(Run(Start(u), moves).user, now)
    ensures var m := Run(Start(OtpServices.NewRequester(id, identifier, name, password, code, expires)), moves);
            Run(m, [Begin(VerifyEmail(code), now), Advance(|m.tasks|)]).user.emailVerified
  {
    var u := OtpServices.NewRequester(id, identifier, name, password, code, expires);
    var m := Run(Start(u), moves);
    EveryFieldFollowsItsOwnEvents(u, moves);
    VerificationOnLog(u, m.log);
    hide Run;
    ConsumeAnswers(m.user, VerifyFlow, code, now);
    ConsumeEffect(m.user, VerifyFlow, code, now);
    VerifyAlone(m, code, now);
  }

  // ----- Who can reset by email -----

  /** Self-service requesters; anyone else signs in another way or is reset by an
      administrator. */
  predicate SelfService(u: User) {
    (exists i :: 0 <= i < |u.roles| && u.roles[i] == Requester) && u.authProvider != Google
  }

  /** A request issues a code exactly for a self-service account, good for ten
      minutes, and changes nothing else. */
  lemma RequestIssuesIff(m: Machine, hash: string, now: int)
    ensures var m' := Run(m, [Begin(RequestReset(hash), now), Advance(|m.tasks|)]);
            if SelfService(m.user) then
              && m'.log == m.log + [Issued(|m.tasks|, hash, now + 10 * 60)]
              && m'.user == m.user.(resetHash := Some(hash), resetExpiresAt := Some(now + 10 * 60))
            else m'.log == m.log && m'.user == m.user
  {
    var (a, b) := (Begin(RequestReset(hash), now), Advance(|m.tasks|));
    assert [a, b][..1] == [a] && [a][..0] == [];
    assert Run(m, [a]) == Step(m, a);
    assert Run(m, [a, b]) == Step(Step(m, a), b);
    MayResetIffSelfService(m.user);
  }

  lemma MayResetIffSelfService(u: User)
    ensures MayResetByEmail(u) <==> SelfService(u)
  {
  }

  /** No request has got past its first check. */
  predicate RequestsStopped(tasks: seq<Task>) {
    forall i :: 0 <= i < |tasks| && tasks[i].call.RequestReset? ==> tasks[i].phase == Done
  }

  lemma StepIssuesNothing(m: Machine, move: Move)
    requires !MayResetByEmail(m.user) && RequestsStopped(m.tasks)
    ensures var m' := Step(m, move);
            && Count(m'.log, IsIssue) == Count(m.log, IsIssue) && RequestsStopped(m'.tasks)
            && m'.user.roles == m.user.roles && m'.user.authProvider == m.user.authProvider
  {
    hide Filter;
    match move
    case Begin(_, _) =>
    case Advance(i) =>
      if i < |m.tasks| && m.tasks[i].phase != Done {
        FilterSnoc(m.log, Act(m.user, i, m.tasks[i]).1, IsIssue);
      }
  }

  /** In no interleaving does any other account get a code. */
  lemma {:induction false} OthersGetNoCodes(u: User, moves: seq<Move>)
    requires !SelfService(u)
    ensures var m := Run(Start(u), moves);
            && Count(m.log, IsIssue) == 0 && RequestsStopped(m.tasks)
            && m.user.roles == u.roles && m.user.authProvider == u.authProvider
  {
    hide Step, Count, RequestsStopped;
    if moves != [] {
      var m := Run(Start(u), moves[..|moves| - 1]);
      OthersGetNoCodes(u, moves[..|moves| - 1]);
      MayResetIffSelfService(u);
      StepIssuesNothing(m, moves[|moves| - 1]);
    } else {
      NothingIssuedYet(u);
    }
  }

  lemma NothingIssuedYet(u: User)
    ensures Count(Start(u).log, IsIssue) == 0 && RequestsStopped(Start(u).tasks)
  {
  }

  /** A new account is a self-service requester, unverified, with no lock, no
      missed guess and no reset code. */
  lemma NewAccountIsClean(id: string, identifier: string, name: string, password: string, code: string, expires: int)
    ensures var u := OtpServices.NewRequester(id, identifier, name, password, code, expires);
            && SelfService(u) && !u.emailVerified && u.failedAttempts == 0 && !LockRuns(u, 0) && u.lockedUntil.None?
            && u.resetHash.None? && u.passwordHash == password && u.identifier == identifier && u.id == id
            && u.roles == [Requester] && u.isActive
            && forall now :: CodeStands(u, VerifyFlow, code, now) <==> now < expires
  {
    var u := OtpServices.NewRequester(id, identifier, name, password, code, expires);
    assert u.roles[0] == Requester;
  }

  // ----- In figures -----

  function Within(start: int): int -> bool {
    (t: int) => start <= t < start + 15 * 60
  }

  lemma {:induction false} InWindowCounts(stamps: seq<int>, start: int)
    ensures InWindow(stamps, start) == |Filter(stamps, Within(start))|
  {
    if stamps != [] {
      InWindowCounts(stamps[1..], start);
      FilterConcat([stamps[0]], stamps[1..], Within(start));
      assert stamps == [stamps[0]] + stamps[1..];
      FilterSnoc([], stamps[0], Within(start));
      assert [] + [stamps[0]] == [stamps[0]];
    }
  }

  /** At most five guesses in any fifteen minutes, until one hits. */
  lemma FiveInFifteenMinutes(u: User, moves: seq<Move>, log: seq<Event>, lo: nat, hi: nat, start: int)
    requires log == Run(Start(u), moves).log && lo <= hi <= |log| && Dry(log, lo, hi)
    ensures |Filter(Weighed(log[lo..hi]), Within(start))| <= 5
  {
    GuessesPerWindow(u, moves, lo, hi, start);
    InWindowCounts(Weighed(log[lo..hi]), start);
  }
}
