/** The in-memory user store with its atomic update, and the auth service's
    code-consuming methods over it. */
module OtpServices {
  import opened Wrappers
  import opened Text
  import opened OtpModel

  /** Ids are distinct, and those the counter has still to hand out are unused. */
  ghost predicate IdsOk(counter: nat, users: seq<User>) {
    && (forall i, j :: 0 <= i < j < |users| ==> users[i].id != users[j].id)
    && (forall i, n: nat :: 0 <= i < |users| && n > counter ==> users[i].id != Numbered("user-", n))
  }

  lemma NewIdIsFresh(counter: nat, users: seq<User>, created: User)
    requires IdsOk(counter, users) && created.id == Numbered("user-", counter + 1)
    ensures forall i :: 0 <= i < |users| ==> users[i].id != created.id
    ensures IdsOk(counter + 1, users + [created])
  {
    hide Numbered;
    forall n: nat | n > counter + 1 ensures created.id != Numbered("user-", n) {
      NumberedInjective("user-", counter + 1, n);
    }
  }

  /** The two accounts cannot both be stored. */
  predicate Clashes(stored: User, user: User) {
    || stored.identifier == Normalize(user.identifier)
    || (stored.googleSubjectID.Some? && stored.googleSubjectID == user.googleSubjectID)
  }

  /** What the services around a sign-up do: the password hash, the code, the
      email that carries it, and the session token at the end. */
  datatype Around = Around(passwordHashed: bool, code: Option<string>, emailSent: bool, tokenIssued: bool)

  class MemoryUserStore {
    var counter: nat
    var users: seq<User>

    constructor ()
      ensures users == [] && counter == 0
    {
      counter, users := 0, [];
    }

    method FindByIdentifier(identifier: string) returns (found: Option<User>)
      ensures var i := IndexOfIdentifier(users, Normalize(identifier));
              found == if i < |users| then Some(users[i]) else None
    {
      var normalized := Normalize(identifier);
      for i := 0 to |users|
        invariant forall j :: 0 <= j < i ==> users[j].identifier != normalized
      {
        if users[i].identifier == normalized {
          return Some(users[i]);
        }
      }
      found := None;
    }

    method Create(user: User) returns (r: Result<User, AuthError>)
      modifies this
      ensures var clash := exists i :: 0 <= i < |old(users)| && Clashes(old(users)[i], user);
              if clash then r == Err(IdentifierTaken) && users == old(users) && counter == old(counter)
              else
                && r == Ok(user.(id := Numbered("user-", counter), identifier := Normalize(user.identifier)))
                && counter == old(counter) + 1 && users == old(users) + [r.value]
      ensures old(IdsOk(counter, users)) ==> IdsOk(counter, users)
      ensures old(IdsOk(counter, users)) && r.Ok? ==>
                forall i :: 0 <= i < |old(users)| ==> old(users)[i].id != r.value.id
    {
      var normalized := Normalize(user.identifier);
      for i := 0 to |users|
        invariant users == old(users) && counter == old(counter)
        invariant forall j :: 0 <= j < i ==> !Clashes(users[j], user)
      {
        if users[i].identifier == normalized {
          return Err(IdentifierTaken);
        }
        if users[i].googleSubjectID.Some? && users[i].googleSubjectID == user.googleSubjectID {
          return Err(IdentifierTaken);
        }
      }
      counter := counter + 1;
      var created := user.(id := Numbered("user-", counter), identifier := normalized);
      if IdsOk(old(counter), users) {
        NewIdIsFresh(old(counter), users, created);
      }
      users := users + [created];
      r := Ok(created);
    }

    /** Find, mutate, write: nothing else touches the store in between, and no
        other row is written. The mutation may hand back a verdict of its own. */
    method UpdateAtomic<R(0)>(id: string, mutate: User -> (User, R)) returns (r: Result<R, AuthError>)
      modifies this
      ensures counter == old(counter)
      ensures var i := IndexOfID(old(users), id);
              if i < |old(users)| then
                users == old(users)[i := mutate(old(users)[i]).0] && r == Ok(mutate(old(users)[i]).1)
              else users == old(users) && r == Err(UserNotFound)
    {
      for i := 0 to |users|
        invariant users == old(users) && counter == old(counter)
        invariant forall j :: 0 <= j < i ==> users[j].id != id
      {
        if users[i].id == id {
          assert IndexOfID(users, id) == i;
          var (updated, verdict) := mutate(users[i]);
          users := users[i := updated];
          return Ok(verdict);
        }
      }
      r := Err(UserNotFound);
    }
  }

  /** `hashOTP` and `hashPassword` are the foreign hash functions. */
  class AuthService {
    const store: MemoryUserStore
    const hashOTP: string -> string
    const hashPassword: string -> string

    constructor (store: MemoryUserStore, hashOTP: string -> string, hashPassword: string -> string)
      ensures this.store == store && this.hashOTP == hashOTP && this.hashPassword == hashPassword
    {
      this.store := store;
      this.hashOTP := hashOTP;
      this.hashPassword := hashPassword;
    }

    /** A six-digit code from a random draw below the bound the loop computes. */
    static method GenerateOTP(random: nat) returns (code: string)
      ensures |code| == OTP_LENGTH && ValueOf(code) == random % 1_000_000
    {
      var max := 1;
      for i := 0 to OTP_LENGTH
        invariant max == Pow10(i)
      {
        max := max * 10;
      }
      SixDigits();
      var n := random % max;
      var digits := Decimal(n);
      DecimalWidth(n, OTP_LENGTH);
      DecimalReadsBack(n);
      LeadingZeros(OTP_LENGTH - |digits|, digits);
      code := Zeros(OTP_LENGTH - |digits|) + digits;
    }

    method ConsumeOTP(userID: string, code: string, flow: Flow, now: int) returns (failure: Option<AuthError>)
      modifies store
      ensures var i := IndexOfID(old(store.users), userID);
              if i < |old(store.users)| then
                var (user, outcome) := Consume(old(store.users)[i], flow, hashOTP(code), now);
                store.users == old(store.users)[i := user] && failure == Verdict(outcome)
              else store.users == old(store.users) && failure == Some(UserNotFound)
    {
      var guess := hashOTP(code);
      var r := store.UpdateAtomic(userID, (u: User) => Consume(u, flow, guess, now));
      match r {
        case Err(e) => failure := Some(e);
        case Ok(outcome) =>
          if outcome == LockedOut {
            return Some(TooManyAttempts);
          }
          if outcome != Matched {
            return Some(InvalidOrExpiredCode);
          }
          failure := None;
      }
    }

    method VerifyEmail(userID: string, code: string, now: int) returns (failure: Option<AuthError>)
      modifies store
      ensures var i := IndexOfID(old(store.users), userID);
              if i < |old(store.users)| then
                var (user, outcome) := Consume(old(store.users)[i], VerifyFlow, hashOTP(code), now);
                store.users == old(store.users)[i := user] && failure == Verdict(outcome)
              else store.users == old(store.users) && failure == Some(UserNotFound)
    {
      failure := ConsumeOTP(userID, code, VerifyFlow, now);
    }

    /** Issues a code to a local requester account and answers the same in every
        case; writes the two code fields and nothing else. */
    method RequestPasswordReset(identifier: string, code: string, now: int)
      modifies store
      ensures var i := IndexOfIdentifier(old(store.users), Normalize(identifier));
              if i < |old(store.users)| && MayResetByEmail(old(store.users)[i]) then
                var j := IndexOfID(old(store.users), old(store.users)[i].id);
                j < |old(store.users)|
                && store.users == old(store.users)[j := old(store.users)[j].(
                     resetHash := Some(hashOTP(code)), resetExpiresAt := Some(now + OTP_TTL))]
              else store.users == old(store.users)
    {
      var found := store.FindByIdentifier(identifier);
      match found {
        case None => return;
        case Some(user) =>
          if !MayResetByEmail(user) {
            return;
          }
          ghost var i := IndexOfIdentifier(store.users, Normalize(identifier));
          assert IndexOfID(store.users, user.id) <= i;
          var hash, expiresAt := hashOTP(code), now + OTP_TTL;
          var _ := store.UpdateAtomic(
            user.id, (u: User) => (u.(resetHash := Some(hash), resetExpiresAt := Some(expiresAt)), ()));
      }
    }

    /** Consumes the code first, and only then looks at the new password. */
    method CompletePasswordReset(identifier: string, code: string, newPassword: string, now: int)
      returns (failure: Option<AuthError>)
      modifies store
      ensures var i := IndexOfIdentifier(old(store.users), Normalize(identifier));
              if i == |old(store.users)| then failure == Some(InvalidOrExpiredCode) && store.users == old(store.users)
              else
                var j := IndexOfID(old(store.users), old(store.users)[i].id);
                var newHash := if AcceptablePassword(newPassword) then Some(hashPassword(newPassword)) else None;
                && j < |old(store.users)|
                && var (user, verdict) := CompletedReset(old(store.users)[j], hashOTP(code), newHash, now);
                   store.users == old(store.users)[j := user] && failure == verdict
    {
      var found := store.FindByIdentifier(identifier);
      match found {
        case None => return Some(InvalidOrExpiredCode);
        case Some(user) =>
          ghost var i := IndexOfIdentifier(store.users, Normalize(identifier));
          ghost var j := IndexOfID(store.users, user.id);
          assert j <= i;
          failure := ConsumeOTP(user.id, code, ResetFlow, now);
          if failure.Some? {
            return;
          }
          assert store.users[j].id == user.id;
          assert forall k :: 0 <= k < j ==> store.users[k].id != user.id;
          assert IndexOfID(store.users, user.id) == j;
          if |TrimSpace(newPassword)| < 8 || |newPassword| > 72 {
            return Some(InvalidUserInput);
          }
          var hash := hashPassword(newPassword);
          var written := store.UpdateAtomic(user.id, (u: User) => (u.(passwordHash := hash), ()));
          match written {
            case Err(e) => failure := Some(e);
            case Ok(_) => failure := None;
          }
      }
    }

    /** Self-service sign-up: the code goes out before the account is stored, so
        that a failure up to there stores nothing; a failing session token comes
        too late for that. */
    method SignUp(identifier: string, displayName: string, password: string, around: Around, now: int)
      returns (r: Result<User, AuthError>)
      modifies store
      ensures var created := NewRequester(
                Numbered("user-", old(store.counter) + 1), Normalize(identifier), TrimSpace(displayName),
                hashPassword(password), if around.code.Some? then hashOTP(around.code.value) else "", now + OTP_TTL);
              match SignUpRefused(old(store.users), identifier, displayName, password, around)
              case Some(e) => r == Err(e) && store.users == old(store.users) && store.counter == old(store.counter)
              case None =>
                && r == (if around.tokenIssued then Ok(created) else Err(Unavailable))
                && store.users == old(store.users) + [created] && store.counter == old(store.counter) + 1
      ensures old(IdsOk(store.counter, store.users)) ==> IdsOk(store.counter, store.users)
    {
      var normalized, name := Normalize(identifier), TrimSpace(displayName);
      if normalized == "" || name == "" {
        return Err(InvalidUserInput);
      }
      if |TrimSpace(password)| < 8 || |password| > 72 {
        return Err(InvalidUserInput);
      }
      NormalizeIdempotent(identifier);
      var taken := store.FindByIdentifier(normalized);
      if taken.Some? {
        return Err(IdentifierTaken);
      }
      if !around.passwordHashed || around.code.None? || !around.emailSent {
        return Err(Unavailable);
      }
      var created := store.Create(NewRequester(
        "", normalized, name, hashPassword(password), hashOTP(around.code.value), now + OTP_TTL));
      match created {
        case Err(e) => return Err(e);
        case Ok(user) =>
          if !around.tokenIssued {
            return Err(Unavailable);
          }
          r := Ok(user);
      }
    }
  }

  /** Why a sign-up stores nothing, if it does not. */
  function SignUpRefused(users: seq<User>, identifier: string, displayName: string, password: string, around: Around)
    : Option<AuthError>
  {
    if Normalize(identifier) == "" || Blank(displayName) || !AcceptablePassword(password) then Some(InvalidUserInput)
    else if IndexOfIdentifier(users, Normalize(identifier)) < |users| then Some(IdentifierTaken)
    else if !around.passwordHashed || around.code.None? || !around.emailSent then Some(Unavailable)
    else None
  }

  /** Sign-up is open to every identifier and name that is not blank, with an
      acceptable password, unless an account already has that identifier up to case
      and white space, or something around it breaks. */
  lemma SignUpAcceptedIff(
    users: seq<User>, identifier: string, displayName: string, password: string, around: Around)
    ensures var refusal := SignUpRefused(users, identifier, displayName, password, around);
            var asked := !Blank(identifier) && !Blank(displayName) && AcceptablePassword(password);
            var taken := exists i :: 0 <= i < |users| && users[i].identifier == Normalize(identifier);
            && (refusal == Some(InvalidUserInput) <==> !asked)
            && (refusal == Some(IdentifierTaken) <==> asked && taken)
            && (refusal.None? <==>
                  asked && !taken && around.passwordHashed && around.code.Some? && around.emailSent)
  {
    hide TrimSpace, AcceptablePassword;
    assert Normalize(identifier) == "" <==> Blank(identifier) by {
      assert |Normalize(identifier)| == |TrimSpace(identifier)|;
    }
    if i :| 0 <= i < |users| && users[i].identifier == Normalize(identifier) {
      assert HasIdentifier(Normalize(identifier))(users[i]);
    }
  }

  /** A self-service account: unverified, with its one verification code. */
  function NewRequester(id: string, identifier: string, displayName: string, passwordHash: string,
                        codeHash: string, codeExpiresAt: int): User {
    User(id, identifier, displayName, passwordHash, [Requester], true, Local, None, false,
         Some(codeHash), Some(codeExpiresAt), None, None, 0, None)
  }

  lemma SixDigits()
    ensures Pow10(OTP_LENGTH) == 1_000_000
  {
    assert Pow10(3) == 10 * (10 * (10 * Pow10(0)));
    assert Pow10(6) == 10 * (10 * (10 * Pow10(3)));
  }
}
