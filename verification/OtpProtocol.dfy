/** Any number of verification, reset-request and reset-completion calls against
    one account, interleaved at every point outside the store's atomic updates. */
module OtpProtocol {
  import opened Wrappers
  import opened OtpModel

  /** Guesses and new codes appear as their hashes. `newHash` is absent when
      the new password fails the password rule. */
  datatype Call =
    | VerifyEmail(guess: string)
    | RequestReset(codeHash: string)
    | CompleteReset(guess: string, newHash: Option<string>)

  /** What is left of a call: its first atomic update, the password write of a
      completion whose code matched, or nothing. */
  datatype Phase = First | Writing(hash: string) | Done

  /** `now` is the clock reading taken before the first atomic update. */
  datatype Task = Task(call: Call, now: int, phase: Phase)

  /** One committed atomic update. */
  datatype Event =
    | Issued(task: nat, hash: string, expires: int)
    | Consumed(task: nat, flow: Flow, guess: string, stamp: int, outcome: Outcome)
    | PasswordSet(task: nat, hash: string)

  datatype Machine = Machine(user: User, tasks: seq<Task>, log: seq<Event>)

  datatype Move = Begin(call: Call, now: int) | Advance(task: nat)

  /** A request for an account that may not reset by email stops at once. */
  function Begun(u: User, call: Call, now: int): Task {
    Task(call, now, if call.RequestReset? && !MayResetByEmail(u) then Done else First)
  }

  /** One atomic update of task `i`. */
  function Act(u: User, i: nat, t: Task): (r: (User, Event, Phase))
    requires t.phase != Done
  {
    match t.phase
    case Writing(hash) => (u.(passwordHash := hash), PasswordSet(i, hash), Done)
    case First =>
      match t.call
      case VerifyEmail(guess) =>
        var (user, outcome) := Consume(u, VerifyFlow, guess, t.now);
        (user, Consumed(i, VerifyFlow, guess, t.now, outcome), Done)
      case RequestReset(hash) =>
        (u.(resetHash := Some(hash), resetExpiresAt := Some(t.now + OTP_TTL)), Issued(i, hash, t.now + OTP_TTL), Done)
      case CompleteReset(guess, newHash) =>
        var (user, outcome) := Consume(u, ResetFlow, guess, t.now);
        (user, Consumed(i, ResetFlow, guess, t.now, outcome),
         if outcome == Matched && newHash.Some? then Writing(newHash.value) else Done)
  }

  function Step(m: Machine, move: Move): Machine {
    match move
    case Begin(call, now) => m.(tasks := m.tasks + [Begun(m.user, call, now)])
    case Advance(i) =>
      if i >= |m.tasks| || m.tasks[i].phase == Done then m
      else
        var (user, event, phase) := Act(m.user, i, m.tasks[i]);
        Machine(user, m.tasks[i := m.tasks[i].(phase := phase)], m.log + [event])
  }

  function Run(m: Machine, moves: seq<Move>): Machine {
    if moves == [] then m else Step(Run(m, moves[..|moves| - 1]), moves[|moves| - 1])
  }

  function Start(u: User): Machine {
    Machine(u, [], [])
  }

  // ----- What the log says each field should be -----

  predicate Success(e: Event, flow: Flow) {
    e.Consumed? && e.flow == flow && e.outcome == Matched
  }

  function PasswordAfter(initial: string, log: seq<Event>): string {
    if log == [] then initial
    else
      var (rest, e) := (log[..|log| - 1], log[|log| - 1]);
      if e.PasswordSet? then e.hash else PasswordAfter(initial, rest)
  }

  function ResetCodeAfter(initial: (Option<string>, Option<int>), log: seq<Event>): (Option<string>, Option<int>) {
    if log == [] then initial
    else
      var (rest, e) := (log[..|log| - 1], log[|log| - 1]);
      if e.Issued? then (Some(e.hash), Some(e.expires))
      else if Success(e, ResetFlow) then (None, None)
      else ResetCodeAfter(initial, rest)
  }

  function VerificationAfter(initial: (bool, Option<string>, Option<int>), log: seq<Event>)
    : (bool, Option<string>, Option<int>)
  {
    if log == [] then initial
    else
      var (rest, e) := (log[..|log| - 1], log[|log| - 1]);
      if Success(e, VerifyFlow) then (true, None, None) else VerificationAfter(initial, rest)
  }

  function CounterAfter(initial: (nat, Option<int>), log: seq<Event>): (nat, Option<int>) {
    if log == [] then initial
    else
      var (rest, e) := (log[..|log| - 1], log[|log| - 1]);
      var before := CounterAfter(initial, rest);
      if !e.Consumed? || e.outcome == LockedOut then before
      else if e.outcome == Matched then (0, None)
      else Missed(before.0, before.1, e.stamp)
  }

  /** The account as the log explains it, every field from its own events. */
  function Rebuilt(u: User, log: seq<Event>): User {
    var (resetHash, resetExpiresAt) := ResetCodeAfter((u.resetHash, u.resetExpiresAt), log);
    var (verified, hash, expiresAt) :=
      VerificationAfter((u.emailVerified, u.verificationHash, u.verificationExpiresAt), log);
    var (attempts, lock) := CounterAfter((u.failedAttempts, u.lockedUntil), log);
    u.(passwordHash := PasswordAfter(u.passwordHash, log),
       resetHash := resetHash, resetExpiresAt := resetExpiresAt,
       emailVerified := verified, verificationHash := hash, verificationExpiresAt := expiresAt,
       failedAttempts := attempts, lockedUntil := lock)
  }

  /** A consumption's outcome is the one the account of that moment demands. */
  predicate Justified(u: User, e: Event) {
    e.Consumed? ==> e.outcome == Consume(u, e.flow, e.guess, e.stamp).1
  }

  ghost predicate Accounted(u: User, log: seq<Event>) {
    forall k :: 0 <= k < |log| ==> Justified(Rebuilt(u, log[..k]), log[k])
  }

  lemma RebuiltSnoc(u: User, log: seq<Event>, i: nat, t: Task)
    requires t.phase != Done
    ensures var (user, event, _) := Act(Rebuilt(u, log), i, t);
            Rebuilt(u, log + [event]) == user && Justified(Rebuilt(u, log), event)
  {
    var event := Act(Rebuilt(u, log), i, t).1;
    assert (log + [event])[..|log|] == log;
  }

  lemma AccountedSnoc(u: User, log: seq<Event>, e: Event)
    requires Accounted(u, log) && Justified(Rebuilt(u, log), e)
    ensures Accounted(u, log + [e])
  {
    var log' := log + [e];
    forall k | 0 <= k < |log'| ensures Justified(Rebuilt(u, log'[..k]), log'[k]) {
      assert log'[..k] == log[..k];
      if k == |log| { assert log[..k] == log; }
    }
  }

  /** No update is ever lost: after every interleaving each field is what its own
      events make it, whichever other calls committed in between. */
  lemma {:induction false} EveryFieldFollowsItsOwnEvents(u: User, moves: seq<Move>)
    ensures var m := Run(Start(u), moves);
            m.user == Rebuilt(u, m.log) && Accounted(u, m.log)
  {
    if moves != [] {
      EveryFieldFollowsItsOwnEvents(u, moves[..|moves| - 1]);
      var m := Run(Start(u), moves[..|moves| - 1]);
      match moves[|moves| - 1] {
        case Begin(_, _) =>
        case Advance(i) =>
          if i < |m.tasks| && m.tasks[i].phase != Done {
            RebuiltSnoc(u, m.log, i, m.tasks[i]);
            AccountedSnoc(u, m.log, Act(m.user, i, m.tasks[i]).1);
          }
      }
    }
  }

  // ----- Which events a task may commit -----

  /** The task of the event, and its own inputs, are those of its call. */
  predicate Attributed(tasks: seq<Task>, e: Event) {
    && e.task < |tasks|
    && var t := tasks[e.task];
       match e
       case Issued(_, hash, expires) => t.call == RequestReset(hash) && expires == t.now + OTP_TTL && t.phase == Done
       case Consumed(_, flow, guess, stamp, outcome) =>
         && stamp == t.now && t.phase != First
         && (match flow
             case VerifyFlow => t.call == VerifyEmail(guess)
             case ResetFlow => t.call.CompleteReset? && t.call.guess == guess)
       case PasswordSet(_, hash) => t.call.CompleteReset? && t.call.newHash == Some(hash) && t.phase == Done
  }

  /** A completion in its writing phase has had its code matched. */
  ghost predicate Entitled(log: seq<Event>, i: nat) {
    exists k :: 0 <= k < |log| && Success(log[k], ResetFlow) && log[k].task == i
  }

  predicate WritesItsOwn(t: Task)
    requires t.phase.Writing?
  {
    t.call.CompleteReset? && t.call.newHash == Some(t.phase.hash)
  }

  ghost predicate TasksInv(m: Machine) {
    && (forall k :: 0 <= k < |m.log| ==> Attributed(m.tasks, m.log[k]))
    && (forall i :: 0 <= i < |m.tasks| && m.tasks[i].phase.Writing? ==>
          WritesItsOwn(m.tasks[i]) && Entitled(m.log, i))
    && (forall k :: 0 <= k < |m.log| && m.log[k].PasswordSet? ==> Entitled(m.log[..k], m.log[k].task))
    && (forall j, k :: 0 <= j < k < |m.log| && m.log[j].task == m.log[k].task ==>
          Success(m.log[j], ResetFlow) && m.log[k].PasswordSet?)
  }

  lemma BeginKeepsTasks(m: Machine, call: Call, now: int)
    requires TasksInv(m)
    ensures TasksInv(Step(m, Begin(call, now)))
  {
  }

  lemma EntitledMore(log: seq<Event>, e: Event, i: nat)
    ensures Entitled(log, i) ==> Entitled(log + [e], i)
    ensures Success(e, ResetFlow) && e.task == i ==> Entitled(log + [e], i)
  {
    var log' := log + [e];
    if Entitled(log, i) {
      var k :| 0 <= k < |log| && Success(log[k], ResetFlow) && log[k].task == i;
      assert log'[k] == log[k];
    }
    assert log'[|log|] == e;
  }

  lemma AdvanceKeepsTasks(m: Machine, i: nat)
    requires TasksInv(m) && i < |m.tasks| && m.tasks[i].phase != Done
    ensures TasksInv(Step(m, Advance(i)))
  {
    var m' := Step(m, Advance(i));
    var e := Act(m.user, i, m.tasks[i]).1;
    assert m'.log == m.log + [e];
    forall k | 0 <= k < |m'.log| ensures Attributed(m'.tasks, m'.log[k]) {
      if k < |m.log| { assert Attributed(m.tasks, m.log[k]); }
    }
    forall j | 0 <= j < |m'.tasks| && m'.tasks[j].phase.Writing?
      ensures WritesItsOwn(m'.tasks[j]) && Entitled(m'.log, j)
    {
      EntitledMore(m.log, e, j);
    }
    forall k | 0 <= k < |m'.log| && m'.log[k].PasswordSet? ensures Entitled(m'.log[..k], m'.log[k].task) {
      assert m'.log[..k] == m.log[..k];
      if k == |m.log| { assert m.log[..k] == m.log; }
    }
    forall j, k | 0 <= j < k < |m'.log| && m'.log[j].task == m'.log[k].task
      ensures Success(m'.log[j], ResetFlow) && m'.log[k].PasswordSet?
    {
      if k == |m.log| { LastOfItsTask(m, i, j); }
    }
  }

  /** What a task that still has a step to take has committed so far. */
  lemma LastOfItsTask(m: Machine, i: nat, j: nat)
    requires TasksInv(m) && i < |m.tasks| && m.tasks[i].phase != Done
    requires j < |m.log| && m.log[j].task == i
    ensures m.tasks[i].phase.Writing? && Success(m.log[j], ResetFlow)
  {
    assert Attributed(m.tasks, m.log[j]);
    var k :| 0 <= k < |m.log| && Success(m.log[k], ResetFlow) && m.log[k].task == i;
  }

  lemma {:induction false} RunKeepsTasks(u: User, moves: seq<Move>)
    ensures TasksInv(Run(Start(u), moves))
  {
    if moves != [] {
      RunKeepsTasks(u, moves[..|moves| - 1]);
      var m := Run(Start(u), moves[..|moves| - 1]);
      match moves[|moves| - 1] {
        case Begin(call, now) => BeginKeepsTasks(m, call, now);
        case Advance(i) =>
          if i < |m.tasks| && m.tasks[i].phase != Done { AdvanceKeepsTasks(m, i); }
      }
    }
  }
}
