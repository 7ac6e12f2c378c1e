/** One-time codes as values: what one atomic consumption does to a user row. */
module OtpModel {
  import opened Wrappers
  import opened Text
  import opened Sequences

  /** Times are in seconds. */
  const MINUTE := 60
  const OTP_LENGTH := 6
  const OTP_TTL := 10 * MINUTE
  const OTP_MAX_ATTEMPTS := 5
  const OTP_LOCKOUT := 15 * MINUTE

  datatype AuthError =
    | InvalidUserInput | IdentifierTaken | UserNotFound | InvalidOrExpiredCode | TooManyAttempts
    | Unavailable

  datatype Role = Admin | Assignee | Supervisor | Requester

  datatype AuthProvider = Local | Google

  datatype User = User(
    id: string, identifier: string, displayName: string, passwordHash: string, roles: seq<Role>, isActive: bool,
    authProvider: AuthProvider, googleSubjectID: Option<string>, emailVerified: bool,
    verificationHash: Option<string>, verificationExpiresAt: Option<int>,
    resetHash: Option<string>, resetExpiresAt: Option<int>,
    failedAttempts: nat, lockedUntil: Option<int>)

  /** The two flows that consume codes; they share the attempt counter. */
  datatype Flow = VerifyFlow | ResetFlow

  datatype Outcome = Matched | Wrong | LockedOut

  function StoredCode(u: User, flow: Flow): (Option<string>, Option<int>) {
    match flow
    case VerifyFlow => (u.verificationHash, u.verificationExpiresAt)
    case ResetFlow => (u.resetHash, u.resetExpiresAt)
  }

  function OnSuccess(u: User, flow: Flow): User {
    match flow
    case VerifyFlow => u.(emailVerified := true, verificationHash := None, verificationExpiresAt := None)
    case ResetFlow => u.(resetHash := None, resetExpiresAt := None)
  }

  predicate Locked(u: User, now: int) {
    u.lockedUntil.Some? && now < u.lockedUntil.value
  }

  predicate Matches(u: User, flow: Flow, guessHash: string, now: int) {
    var (hash, expires) := StoredCode(u, flow);
    hash == Some(guessHash) && expires.Some? && now < expires.value
  }

  /** The attempt counter after one more wrong guess stamped `now`. */
  function Missed(attempts: nat, lock: Option<int>, now: int): (nat, Option<int>) {
    (attempts + 1, if attempts + 1 >= OTP_MAX_ATTEMPTS then Some(now + OTP_LOCKOUT) else lock)
  }

  /** The mutation `consumeOTP` runs under the store's lock. `now` was read
      before the lock was taken. */
  function Consume(u: User, flow: Flow, guessHash: string, now: int): (User, Outcome) {
    if Locked(u, now) then (u, LockedOut)
    else if Matches(u, flow, guessHash, now) then
      (OnSuccess(u, flow).(failedAttempts := 0, lockedUntil := None), Matched)
    else
      var (attempts, lock) := Missed(u.failedAttempts, u.lockedUntil, now);
      (u.(failedAttempts := attempts, lockedUntil := lock), Wrong)
  }

  function Verdict(outcome: Outcome): Option<AuthError> {
    match outcome
    case Matched => None
    case LockedOut => Some(TooManyAttempts)
    case Wrong => Some(InvalidOrExpiredCode)
  }

  /** A reset completion that no other call interrupts. `newHash` is absent when
      the new password fails the password rule, which costs the caller the code. */
  function CompletedReset(u: User, guessHash: string, newHash: Option<string>, now: int): (User, Option<AuthError>) {
    var (user, outcome) := Consume(u, ResetFlow, guessHash, now);
    if outcome != Matched then (user, Verdict(outcome))
    else if newHash.None? then (user, Some(InvalidUserInput))
    else (user.(passwordHash := newHash.value), None)
  }

  function LowerChar(c: char): char {
    if 'A' <= c <= 'Z' then (c as int + 32) as char else c
  }

  function Lowered(s: string, lower: char -> char): string {
    seq(|s|, i requires 0 <= i < |s| => lower(s[i]))
  }

  /** Trimming, then lower-casing character by character. */
  function NormalizeBy(identifier: string, lower: char -> char): string {
    Lowered(TrimSpace(identifier), lower)
  }

  /** With ASCII lower-casing. */
  function Normalize(identifier: string): string {
    NormalizeBy(identifier, LowerChar)
  }

  /** What a lower-casing table must not do: change a lower-case letter again, or
      turn anything into white space. */
  ghost predicate Settles(lower: char -> char) {
    (forall c :: lower(lower(c)) == lower(c)) && (forall c :: !IsSpace(c) ==> !IsSpace(lower(c)))
  }

  ghost predicate NormalizesOnce(lower: char -> char) {
    forall s :: NormalizeBy(NormalizeBy(s, lower), lower) == NormalizeBy(s, lower)
  }

  lemma SettledNormalizesOnce(s: string, lower: char -> char)
    requires Settles(lower)
    ensures NormalizeBy(NormalizeBy(s, lower), lower) == NormalizeBy(s, lower)
  {
    hide TrimSpace;
    var t, n := TrimSpace(s), NormalizeBy(s, lower);
    var _, _ := TrimSpaceMeaning(s);
    assert TightEnds(n);
    TightIsTrimmed(n);
    assert forall i :: 0 <= i < |t| ==> n[i] == lower(t[i]);
  }

  lemma SpaceTrimsAway(c: char)
    requires IsSpace(c)
    ensures TrimSpace([c]) == ""
  {
    assert [c][1..] == "" && TrimLeft("") == "" && TrimRight("") == "";
    assert TrimLeft([c]) == TrimLeft([c][1..]);
  }

  lemma OneCharacter(c: char, lower: char -> char)
    requires NormalizesOnce(lower) && !IsSpace(c)
    ensures !IsSpace(lower(c)) && lower(lower(c)) == lower(c)
  {
    TightIsTrimmed([c]);
    var n := NormalizeBy([c], lower);
    assert n == [lower(c)];
    assert NormalizeBy(n, lower) == n;
    assert |TrimSpace(n)| == 1;
    if IsSpace(lower(c)) {
      SpaceTrimsAway(lower(c));
    }
    TightIsTrimmed(n);
    assert NormalizeBy(n, lower)[0] == lower(n[0]);
  }

  lemma InnerSpace(c: char, lower: char -> char)
    requires NormalizesOnce(lower) && IsSpace(c)
    ensures lower(lower(c)) == lower(c)
  {
    OneCharacter('a', lower);
    var s := ['a', c, 'a'];
    TightIsTrimmed(s);
    var n := NormalizeBy(s, lower);
    assert n == [lower('a'), lower(c), lower('a')];
    TightIsTrimmed(n);
    assert NormalizeBy(n, lower)[1] == lower(n[1]);
    assert NormalizeBy(n, lower) == n;
  }

  /** Normalising twice is normalising once, for every identifier, exactly for the
      lower-casing tables that settle; ASCII or not. */
  lemma NormalizesOnceIffSettles(lower: char -> char)
    ensures NormalizesOnce(lower) <==> Settles(lower)
  {
    if NormalizesOnce(lower) {
      forall c ensures lower(lower(c)) == lower(c) && (!IsSpace(c) ==> !IsSpace(lower(c))) {
        if IsSpace(c) {
          InnerSpace(c, lower);
        } else {
          OneCharacter(c, lower);
        }
      }
    }
    if Settles(lower) {
      forall s ensures NormalizeBy(NormalizeBy(s, lower), lower) == NormalizeBy(s, lower) {
        SettledNormalizesOnce(s, lower);
      }
    }
  }

  /** So the store finds what it stored. */
  lemma NormalizeIdempotent(identifier: string)
    ensures Normalize(Normalize(identifier)) == Normalize(identifier)
  {
    SettledNormalizesOnce(identifier, LowerChar);
  }

  /** One letter in either case, or the same character. */
  predicate SameLetter(c: char, d: char) {
    || c == d
    || ('A' <= c <= 'Z' && d as int == c as int + 32)
    || ('A' <= d <= 'Z' && c as int == d as int + 32)
  }

  predicate SameLetters(a: string, b: string) {
    |a| == |b| && forall i :: 0 <= i < |a| ==> SameLetter(a[i], b[i])
  }

  /** Two identifiers are one account's exactly when they differ only in ASCII case
      and in the white space around them. */
  lemma NormalizeFoldsCase(a: string, b: string)
    ensures Normalize(a) == Normalize(b) <==> SameLetters(TrimSpace(a), TrimSpace(b))
  {
    hide TrimSpace;
    var s, t := TrimSpace(a), TrimSpace(b);
    if |s| == |t| {
      assert forall i :: 0 <= i < |s| ==> Normalize(a)[i] == LowerChar(s[i]) && Normalize(b)[i] == LowerChar(t[i]);
      assert forall i :: 0 <= i < |s| ==> (LowerChar(s[i]) == LowerChar(t[i]) <==> SameLetter(s[i], t[i]));
    }
  }

  /** The accounts that may reset their own password by email. */
  predicate MayResetByEmail(u: User) {
    Requester in u.roles && u.authProvider == Local
  }

  /** The password rule: eight characters once trimmed, at most 72 as typed. */
  predicate AcceptablePassword(password: string) {
    |TrimSpace(password)| >= 8 && |password| <= 72
  }

  /** There are acceptable passwords of exactly these lengths, and the white space
      around one does not count towards the eight. */
  lemma PasswordLengths(n: nat)
    ensures (exists p: string :: |p| == n && AcceptablePassword(p)) <==> 8 <= n <= 72
    ensures forall p, pad :: AllSpace(pad) && AcceptablePassword(p + pad) ==> |p| >= 8
  {
    forall p ensures |TrimSpace(p)| <= |p| {
      var _, _ := TrimSpaceMeaning(p);
    }
    if 8 <= n <= 72 {
      var p := seq(n, _ => 'a');
      TightIsTrimmed(p);
      assert |p| == n && AcceptablePassword(p);
    }
    forall p, pad | AllSpace(pad) && AcceptablePassword(p + pad) ensures |p| >= 8 {
      PaddingIsTrimmed(p, pad);
    }
  }

  function HasID(id: string): User -> bool {
    (u: User) => u.id == id
  }

  function HasIdentifier(identifier: string): User -> bool {
    (u: User) => u.identifier == identifier
  }

  function IndexOfID(users: seq<User>, id: string): nat {
    FirstIndex(users, HasID(id))
  }

  function IndexOfIdentifier(users: seq<User>, identifier: string): nat {
    FirstIndex(users, HasIdentifier(identifier))
  }
}
