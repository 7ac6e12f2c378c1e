/** How fast codes can be guessed, and what a lockout does to the codes under it. */
module OtpGuessing {
  import opened OtpModel
  import opened OtpWindow
  import opened OtpProtocol
  import opened OtpTheorems

  // ----- Guessing -----

  /** The clock readings of the guesses that were weighed, in commit order. */
  function Weighed(log: seq<Event>): seq<int> {
    if log == [] then []
    else (if log[0].Consumed? && log[0].outcome != LockedOut then [log[0].stamp] else []) + Weighed(log[1..])
  }

  predicate Hit(e: Event) {
    e.Consumed? && e.outcome == Matched
  }

  /** No guess hits between `lo` and `hi`, save possibly the last. */
  ghost predicate Dry(log: seq<Event>, lo: nat, hi: nat)
    requires hi <= |log|
  {
    forall k :: lo <= k < hi - 1 ==> !Hit(log[k])
  }

  /** One event's effect on the counter, and what the lock allowed. */
  lemma CounterOneMore(u: User, log: seq<Event>, k: nat)
    requires k < |log| && Accounted(u, log)
    ensures var (before, after, e) := (Rebuilt(u, log[..k]), Rebuilt(u, log[..k + 1]), log[k]);
            if e.Consumed? && e.outcome != LockedOut then
              !Locked(before, e.stamp)
              && (!Hit(e) ==> (after.failedAttempts, after.lockedUntil)
                              == Missed(before.failedAttempts, before.lockedUntil, e.stamp))
            else after.failedAttempts == before.failedAttempts && after.lockedUntil == before.lockedUntil
  {
    assert log[..k + 1][..k] == log[..k];
    assert Justified(Rebuilt(u, log[..k]), log[k]);
  }

  lemma {:induction false} WeighedIsEvaluated(u: User, log: seq<Event>, lo: nat, hi: nat)
    requires lo <= hi <= |log| && Accounted(u, log) && Dry(log, lo, hi)
    ensures var before := Rebuilt(u, log[..lo]);
            Evaluated(before.failedAttempts, before.lockedUntil, Weighed(log[lo..hi]))
    decreases hi - lo
  {
    if lo < hi {
      WeighedIsEvaluated(u, log, lo + 1, hi);
      CounterOneMore(u, log, lo);
      assert log[lo..hi][0] == log[lo] && log[lo..hi][1..] == log[lo + 1..hi];
      var rest := Weighed(log[lo + 1..hi]);
      if log[lo].Consumed? && log[lo].outcome != LockedOut {
        assert Weighed(log[lo..hi]) == [log[lo].stamp] + rest;
        assert ([log[lo].stamp] + rest)[1..] == rest;
        if lo == hi - 1 { assert rest == []; }
      } else {
        assert Weighed(log[lo..hi]) == rest;
      }
    }
  }

  /** However calls interleave and whatever their clocks read, any stretch
      without a success weighs at most five guesses from one fifteen-minute
      window, fewer if the counter had already started, and that includes a
      final guess that hits. */
  lemma GuessesPerWindow(u: User, moves: seq<Move>, lo: nat, hi: nat, start: int)
    requires lo <= hi <= |Run(Start(u), moves).log| && Dry(Run(Start(u), moves).log, lo, hi)
    ensures var log := Run(Start(u), moves).log;
            InWindow(Weighed(log[lo..hi]), start) <= Capacity(Rebuilt(u, log[..lo]).failedAttempts)
  {
    EveryFieldFollowsItsOwnEvents(u, moves);
    var log := Run(Start(u), moves).log;
    WeighedIsEvaluated(u, log, lo, hi);
    WindowBound(Rebuilt(u, log[..lo]).failedAttempts, Rebuilt(u, log[..lo]).lockedUntil, Weighed(log[lo..hi]), start);
  }

  lemma RateOnLog(u: User, log: seq<Event>, lo: nat, hi: nat, n: nat)
    requires lo <= hi <= |log| && Accounted(u, log) && Dry(log, lo, hi)
    requires Capacity(Rebuilt(u, log[..lo]).failedAttempts) <= n <= |Weighed(log[lo..hi])|
    ensures var (stamps, full) := (Weighed(log[lo..hi]), Capacity(Rebuilt(u, log[..lo]).failedAttempts));
            stamps[n - 1] >= stamps[full - 1] + OTP_LOCKOUT * (n - full)
  {
    WeighedIsEvaluated(u, log, lo, hi);
    RateBound(Rebuilt(u, log[..lo]).failedAttempts, Rebuilt(u, log[..lo]).lockedUntil, Weighed(log[lo..hi]), n - 1);
  }

  /** Guess number `n` of such a stretch is stamped at least as many lockouts
      after the one that filled the counter as there are guesses in between;
      from a clear counter, `n - 5` lockouts after the fifth. */
  lemma GuessingRate(u: User, moves: seq<Move>, log: seq<Event>, lo: nat, hi: nat, n: nat)
    requires log == Run(Start(u), moves).log && lo <= hi <= |log| && Dry(log, lo, hi)
    requires Capacity(Rebuilt(u, log[..lo]).failedAttempts) <= n <= |Weighed(log[lo..hi])|
    ensures var (stamps, full) := (Weighed(log[lo..hi]), Capacity(Rebuilt(u, log[..lo]).failedAttempts));
            stamps[n - 1] >= stamps[full - 1] + OTP_LOCKOUT * (n - full)
  {
    EveryFieldFollowsItsOwnEvents(u, moves);
    RateOnLog(u, log, lo, hi, n);
  }

  // ----- The bounds are met by calls -----

  lemma {:induction false} RunConcat(m: Machine, first: seq<Move>, rest: seq<Move>)
    ensures Run(m, first + rest) == Run(Run(m, first), rest)
  {
    if rest == [] {
      assert first + rest == first;
    } else {
      RunConcat(m, first, rest[..|rest| - 1]);
      assert (first + rest)[..|first + rest| - 1] == first + rest[..|rest| - 1];
    }
  }

  /** A code hash that is not the stored one. */
  function Mistaken(u: User): string {
    if u.verificationHash.Some? then u.verificationHash.value + "x" else ""
  }

  function OneGuess(m: Machine, at: int): seq<Move> {
    [Begin(VerifyEmail(Mistaken(m.user)), at), Advance(|m.tasks|)]
  }

  /** One wrong guess from beginning to end. */
  lemma OneGuessWeighed(m: Machine, at: int)
    requires !Locked(m.user, at)
    ensures var m' := Run(m, OneGuess(m, at));
            && m'.log == m.log + [Consumed(|m.tasks|, VerifyFlow, Mistaken(m.user), at, Wrong)]
            && (m'.user.failedAttempts, m'.user.lockedUntil) == Missed(m.user.failedAttempts, m.user.lockedUntil, at)
  {
    var (begin, advance) := (OneGuess(m, at)[0], OneGuess(m, at)[1]);
    assert OneGuess(m, at)[..1] == [begin] && [begin][..0] == [];
    assert Run(m, [begin]) == Step(m, begin);
    assert Run(m, OneGuess(m, at)) == Step(Step(m, begin), advance);
  }

  lemma NothingWeighed()
    ensures Weighed([]) == []
  {
  }

  lemma WeighedCons(e: Event, more: seq<Event>)
    requires e.Consumed? && e.outcome != LockedOut
    ensures Weighed([e] + more) == [e.stamp] + Weighed(more)
  {
    assert ([e] + more)[1..] == more;
  }

  /** Any stamps the counter would let through come from some calls. */
  lemma {:induction false} StampsAreRealised(m: Machine, stamps: seq<int>)
    returns (moves: seq<Move>, more: seq<Event>)
    requires Evaluated(m.user.failedAttempts, m.user.lockedUntil, stamps)
    ensures Run(m, moves).log == m.log + more && Weighed(more) == stamps
    ensures forall k :: 0 <= k < |more| ==> !Hit(more[k])
    decreases |stamps|
  {
    hide OneGuess, Mistaken, Step, Weighed, Missed;
    if stamps == [] {
      moves, more := [], [];
      assert Run(m, []) == m;
      NothingWeighed();
    } else {
      OneGuessWeighed(m, stamps[0]);
      var m' := Run(m, OneGuess(m, stamps[0]));
      var e := Consumed(|m.tasks|, VerifyFlow, Mistaken(m.user), stamps[0], Wrong);
      var rest, events := StampsAreRealised(m', stamps[1..]);
      RunConcat(m, OneGuess(m, stamps[0]), rest);
      moves, more := OneGuess(m, stamps[0]) + rest, [e] + events;
      WeighedCons(e, events);
      assert m.log + more == (m.log + [e]) + events;
    }
  }

  /** Calls against the account that weigh `k` guesses in one window without a
      hit, save possibly the last. */
  ghost predicate CallsWeigh(u: User, k: int) {
    exists moves, start :: DryRunWeighs(u, moves, start, k)
  }

  ghost predicate DryRunWeighs(u: User, moves: seq<Move>, start: int, k: int) {
    var log := Run(Start(u), moves).log;
    Dry(log, 0, |log|) && InWindow(Weighed(log), start) == k
  }

  /** For every account: some interleaving weighs `k` guesses in one window
      exactly when `k` is within the capacity its counter leaves. */
  lemma CallsReachCapacity(u: User, k: nat)
    ensures CallsWeigh(u, k) <==> k <= Capacity(u.failedAttempts)
  {
    if CallsWeigh(u, k) {
      var moves, start :| DryRunWeighs(u, moves, start, k);
      var log := Run(Start(u), moves).log;
      GuessesPerWindow(u, moves, 0, |log|, start);
      assert log[..0] == [] && log[0..|log|] == log;
    }
    if k <= Capacity(u.failedAttempts) {
      FitsIffWithinCapacity(u.failedAttempts, u.lockedUntil, k);
      var stamps, start :| Evaluated(u.failedAttempts, u.lockedUntil, stamps) && InWindow(stamps, start) == k;
      var moves, more := StampsAreRealised(Start(u), stamps);
      assert [] + more == more;
      assert DryRunWeighs(u, moves, start, k);
    }
  }

  // ----- A lockout outlives the codes it is put on -----

  /** Without a hit, a lock is only ever moved later. */
  lemma {:induction false} LockHolds(u: User, log: seq<Event>, lo: nat, hi: nat)
    requires lo <= hi <= |log| && Accounted(u, log) && forall k :: lo <= k < hi ==> !Hit(log[k])
    requires Rebuilt(u, log[..lo]).lockedUntil.Some?
    ensures Rebuilt(u, log[..hi]).lockedUntil.Some?
    ensures Rebuilt(u, log[..hi]).lockedUntil.value >= Rebuilt(u, log[..lo]).lockedUntil.value
    decreases hi - lo
  {
    hide Rebuilt, Accounted;
    if lo < hi {
      LockHolds(u, log, lo, hi - 1);
      CounterOneMore(u, log, hi - 1);
    }
  }

  /** The next hit after a lockout was put on is stamped at its end or later. */
  lemma NextHitIsAfterLock(u: User, log: seq<Event>, lo: nat, j: nat)
    requires lo <= j < |log| && Accounted(u, log) && Hit(log[j])
    requires forall k :: lo <= k < j ==> !Hit(log[k])
    requires Rebuilt(u, log[..lo]).lockedUntil.Some?
    ensures log[j].stamp >= Rebuilt(u, log[..lo]).lockedUntil.value
  {
    LockHolds(u, log, lo, j);
    CounterOneMore(u, log, j);
  }

  /** The account of this moment is locked at least until `t`. */
  predicate LockedTo(u: User, t: int) {
    u.lockedUntil.Some? && t <= u.lockedUntil.value
  }

  /** Codes live ten minutes and lockouts last fifteen. A lockout that ends no
      earlier than the sign-up code expires voids that code: whatever is called
      afterwards, the address is verified only after some other guess has hit,
      and a sign-up code is never issued again. */
  lemma LockedSignUpNeverVerifies(u: User, moves: seq<Move>, log: seq<Event>, lo: nat, j: nat)
    requires log == Run(Start(u), moves).log && lo <= j < |log|
    requires u.verificationExpiresAt.Some? && LockedTo(Rebuilt(u, log[..lo]), u.verificationExpiresAt.value)
    requires forall k :: lo <= k < j ==> !Hit(log[k])
    ensures !Success(log[j], VerifyFlow)
  {
    EveryFieldFollowsItsOwnEvents(u, moves);
    if Success(log[j], VerifyFlow) {
      VerifiesWithTheSignUpCode(u, moves, j);
      NextHitIsAfterLock(u, log, lo, j);
    }
  }

  /** In particular: the guess that fills the counter, made no more than five
      minutes before the code was issued or at any time after, is the code's end. */
  lemma FullCounterVoidsSignUpCode(u: User, moves: seq<Move>, log: seq<Event>, i: nat, j: nat)
    requires log == Run(Start(u), moves).log && i < j < |log|
    requires log[i].Consumed? && log[i].outcome == Wrong
    requires Rebuilt(u, log[..i]).failedAttempts + 1 >= OTP_MAX_ATTEMPTS
    requires u.verificationExpiresAt.Some? && u.verificationExpiresAt.value - OTP_TTL <= log[i].stamp + 5 * MINUTE
    requires forall k :: i < k < j ==> !Hit(log[k])
    ensures !Success(log[j], VerifyFlow)
  {
    EveryFieldFollowsItsOwnEvents(u, moves);
    CounterOneMore(u, log, i);
    LockedSignUpNeverVerifies(u, moves, log, i + 1, j);
  }

  /** The same for reset codes: the next reset after a lockout spends a code that
      outlives it, so one issued since, or one that expires after it. */
  lemma NextResetSpendsALaterCode(u: User, moves: seq<Move>, log: seq<Event>, lo: nat, j: nat, k: int)
    requires log == Run(Start(u), moves).log && lo <= j < |log|
    requires Success(log[j], ResetFlow) && Spent(u, log, k, j)
    requires Rebuilt(u, log[..lo]).lockedUntil.Some? && forall i :: lo <= i < j ==> !Hit(log[i])
    ensures var expires := if k == -1 then u.resetExpiresAt.value else log[k].expires;
            Rebuilt(u, log[..lo]).lockedUntil.value < expires
  {
    EveryFieldFollowsItsOwnEvents(u, moves);
    NextHitIsAfterLock(u, log, lo, j);
  }
}
