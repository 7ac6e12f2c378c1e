/** The guessing-rate bound of the attempt counter: how many guesses it can
    weigh, whatever clock readings they carry and in whatever order they commit. */
module OtpWindow {
  import opened Wrappers
  import opened OtpModel

  /** `stamps` are the clock readings, in commit order, of guesses that the
      lock let through, all of them wrong save perhaps the last. */
  predicate Evaluated(attempts: nat, lock: Option<int>, stamps: seq<int>)
    decreases |stamps|
  {
    stamps == []
    || (&& !(lock.Some? && stamps[0] < lock.value)
        && Evaluated(Missed(attempts, lock, stamps[0]).0, Missed(attempts, lock, stamps[0]).1, stamps[1..]))
  }

  /** How many stamps fall in the lockout-long window opening at `start`. */
  function InWindow(stamps: seq<int>, start: int): nat {
    if stamps == [] then 0
    else (if start <= stamps[0] < start + OTP_LOCKOUT then 1 else 0) + InWindow(stamps[1..], start)
  }

  /** Once the limit is reached every later guess waits for the lock. */
  lemma {:induction false} AllAfterLock(attempts: nat, lock: int, stamps: seq<int>)
    requires attempts >= OTP_MAX_ATTEMPTS && Evaluated(attempts, Some(lock), stamps)
    ensures forall i :: 0 <= i < |stamps| ==> stamps[i] >= lock + OTP_LOCKOUT * i
    decreases |stamps|
  {
    if stamps != [] {
      AllAfterLock(attempts + 1, stamps[0] + OTP_LOCKOUT, stamps[1..]);
      forall i | 0 <= i < |stamps| ensures stamps[i] >= lock + OTP_LOCKOUT * i {
        if i > 0 { assert stamps[i] == stamps[1..][i - 1]; }
      }
    }
  }

  lemma {:induction false} NoneInWindow(stamps: seq<int>, start: int)
    requires forall i :: 0 <= i < |stamps| ==> stamps[i] >= start + OTP_LOCKOUT
    ensures InWindow(stamps, start) == 0
  {
    if stamps != [] {
      NoneInWindow(stamps[1..], start);
    }
  }

  /** How many guesses a window can weigh: what the counter has left, or one if
      it has none left. */
  function Capacity(attempts: nat): nat {
    if attempts < OTP_MAX_ATTEMPTS then OTP_MAX_ATTEMPTS - attempts else 1
  }

  lemma {:induction false} WindowBound(attempts: nat, lock: Option<int>, stamps: seq<int>, start: int)
    requires Evaluated(attempts, lock, stamps)
    ensures InWindow(stamps, start) <= Capacity(attempts)
    decreases |stamps|
  {
    if stamps != [] {
      var (next, lock') := Missed(attempts, lock, stamps[0]);
      WindowBound(next, lock', stamps[1..], start);
      if next >= OTP_MAX_ATTEMPTS && start <= stamps[0] {
        AllAfterLock(next, stamps[0] + OTP_LOCKOUT, stamps[1..]);
        NoneInWindow(stamps[1..], start);
      }
    }
  }

  /** Every guess past the one that fills the counter costs a whole lockout. */
  lemma {:induction false} RateBound(attempts: nat, lock: Option<int>, stamps: seq<int>, j: nat)
    requires Evaluated(attempts, lock, stamps) && Capacity(attempts) - 1 <= j < |stamps|
    ensures var last := Capacity(attempts) - 1;
            stamps[j] >= stamps[last] + OTP_LOCKOUT * (j - last)
    decreases |stamps|
  {
    var (next, lock') := Missed(attempts, lock, stamps[0]);
    if next < OTP_MAX_ATTEMPTS {
      RateBound(next, lock', stamps[1..], j - 1);
    } else {
      AllAfterLock(next, stamps[0] + OTP_LOCKOUT, stamps[1..]);
      if j > 0 { assert stamps[j] == stamps[1..][j - 1]; }
    }
  }

  /** All the guesses the counter has left at once, and then one per lockout. */
  function FullSpeed(attempts: nat, at: int, n: nat): seq<int>
    decreases n
  {
    if n == 0 then []
    else [at] + FullSpeed(attempts + 1, if attempts + 1 >= OTP_MAX_ATTEMPTS then at + OTP_LOCKOUT else at, n - 1)
  }

  /** How many lockouts precede guess `i`. */
  function Waits(attempts: nat, i: nat): nat {
    if i < Capacity(attempts) then 0 else i - Capacity(attempts) + 1
  }

  /** The lock, if there is one, has run out. */
  predicate RunOut(lock: Option<int>, at: int) {
    lock.None? || at >= lock.value
  }

  lemma {:induction false} FullSpeedRuns(attempts: nat, lock: Option<int>, at: int, n: nat)
    requires RunOut(lock, at)
    ensures var stamps := FullSpeed(attempts, at, n);
            && |stamps| == n && Evaluated(attempts, lock, stamps)
            && forall i :: 0 <= i < n ==> stamps[i] == at + OTP_LOCKOUT * Waits(attempts, i)
    decreases n
  {
    if n > 0 {
      var (next, lock') := Missed(attempts, lock, at);
      var later := if next >= OTP_MAX_ATTEMPTS then at + OTP_LOCKOUT else at;
      FullSpeedRuns(next, lock', later, n - 1);
      var stamps, rest := FullSpeed(attempts, at, n), FullSpeed(next, later, n - 1);
      assert stamps == [at] + rest && stamps[1..] == rest;
      forall i | 0 <= i < n ensures stamps[i] == at + OTP_LOCKOUT * Waits(attempts, i) {
        if i > 0 {
          assert stamps[i] == rest[i - 1];
        }
      }
    }
  }

  lemma {:induction false} AllInWindow(stamps: seq<int>, start: int)
    requires forall i :: 0 <= i < |stamps| ==> start <= stamps[i] < start + OTP_LOCKOUT
    ensures InWindow(stamps, start) == |stamps|
  {
    if stamps != [] {
      AllInWindow(stamps[1..], start);
    }
  }

  lemma {:induction false} PrefixInWindow(stamps: seq<int>, k: nat, start: int)
    requires k <= |stamps|
    ensures InWindow(stamps[..k], start) <= InWindow(stamps, start)
  {
    if k > 0 {
      PrefixInWindow(stamps[1..], k - 1, start);
      assert stamps[..k][1..] == stamps[1..][..k - 1];
    }
  }

  /** Both bounds are met exactly, from every counter and every lock that has run
      out: guesses can be weighed so that one window is filled to capacity and
      each later guess comes exactly one lockout after its predecessor. */
  lemma BoundsAreTight(attempts: nat, lock: Option<int>, at: int, n: nat) returns (stamps: seq<int>)
    requires RunOut(lock, at) && n >= Capacity(attempts)
    ensures |stamps| == n && Evaluated(attempts, lock, stamps)
    ensures InWindow(stamps, at) == Capacity(attempts)
    ensures var last := Capacity(attempts) - 1;
            forall j :: last <= j < n ==> stamps[j] == stamps[last] + OTP_LOCKOUT * (j - last)
  {
    stamps := FullSpeed(attempts, at, n);
    FullSpeedRuns(attempts, lock, at, n);
    WindowBound(attempts, lock, stamps, at);
    AllInWindow(stamps[..Capacity(attempts)], at);
    PrefixInWindow(stamps, Capacity(attempts), at);
  }

  /** Guesses the counter can weigh, `k` of them in one window. */
  ghost predicate Fits(attempts: nat, lock: Option<int>, k: nat) {
    exists stamps, start :: Evaluated(attempts, lock, stamps) && InWindow(stamps, start) == k
  }

  /** One window can weigh exactly the numbers of guesses up to the capacity. */
  lemma FitsIffWithinCapacity(attempts: nat, lock: Option<int>, k: nat)
    ensures Fits(attempts, lock, k) <==> k <= Capacity(attempts)
  {
    if Fits(attempts, lock, k) {
      var stamps, start :| Evaluated(attempts, lock, stamps) && InWindow(stamps, start) == k;
      WindowBound(attempts, lock, stamps, start);
    }
    if k <= Capacity(attempts) {
      var at := if lock.Some? then lock.value else 0;
      var stamps := FullSpeed(attempts, at, k);
      FullSpeedRuns(attempts, lock, at, k);
      AllInWindow(stamps, at);
      assert Fits(attempts, lock, k);
    }
  }

  /** So five wrong guesses fit a lockout's time exactly when none was counted
      before: the counter outlives the lockout it leads to. */
  lemma FiveFitIffClear(attempts: nat, lock: Option<int>)
    ensures Fits(attempts, lock, OTP_MAX_ATTEMPTS) <==> attempts == 0
  {
    FitsIffWithinCapacity(attempts, lock, OTP_MAX_ATTEMPTS);
  }
}
