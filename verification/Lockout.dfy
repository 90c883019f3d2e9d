/** Password login: the failure counter and the lock, with login calls run one at a time. */
module Lockout {
  import opened Prelude
  import opened CanonicalJson

  const LIMIT := 5
  const LOCK := 900_000

  datatype Account = Account(failedAttempts: nat, lockedUntil: Option<int>, lastCountry: Option<Text>, disabled: bool,
                             mfaEnabled: bool)

  /** One call: the account it names, whether the password is right, the normalised country, and the clock
      when the lock is read and when the comparison is over. */
  datatype Attempt = Attempt(email: Text, correct: bool, country: Option<Text>, checkedAt: int, comparedAt: int)

  datatype Outcome =
    | UnknownUser | Disabled | Locked
    | BadPassword(locked: bool)
    | Success(mfaRequired: bool, review: bool)

  type Users = map<Text, Account>

  // ---------- One call ----------

  predicate LockedAt(u: Account, now: int) { u.lockedUntil.Some? && u.lockedUntil.value > now }

  function Judge(users: Users, a: Attempt): Outcome {
    if a.email !in users then UnknownUser
    else
      var u := users[a.email];
      if u.disabled then Disabled
      else if LockedAt(u, a.checkedAt) then Locked
      else if !a.correct then BadPassword(u.failedAttempts + 1 >= LIMIT)
      else Success(u.mfaEnabled, u.lastCountry.Some? && a.country.Some? && u.lastCountry != a.country)
  }

  function Step(users: Users, a: Attempt): Users {
    match Judge(users, a)
    case BadPassword(locked) =>
      var u := users[a.email];
      users[a.email := u.(failedAttempts := u.failedAttempts + 1,
                          lockedUntil := if locked then Some(a.comparedAt + LOCK) else u.lockedUntil)]
    case Success(_, _) =>
      var u := users[a.email];
      users[a.email := u.(failedAttempts := 0, lockedUntil := None,
                          lastCountry := if a.country.Some? then a.country else u.lastCountry)]
    case _ => users
  }

  /** The call reaches the comparison of the password. */
  predicate Admitted(users: Users, a: Attempt) {
    && a.email in users && !users[a.email].disabled
    && (users[a.email].lockedUntil.None? || users[a.email].lockedUntil.value <= a.checkedAt)
  }

  /** Who is turned away, and what a wrong and a right password leave behind. */
  lemma OutcomesMean(users: Users, a: Attempt)
    ensures a.email !in users ==> Judge(users, a) == UnknownUser
    ensures a.email in users && users[a.email].disabled ==> Judge(users, a) == Disabled
    ensures a.email in users && !users[a.email].disabled && !Admitted(users, a) ==> Judge(users, a) == Locked
    ensures !Admitted(users, a) ==> Step(users, a) == users
    ensures Step(users, a).Keys == users.Keys
    ensures forall e :: e in users && e != a.email ==> Step(users, a)[e] == users[e]
    ensures Admitted(users, a) ==>
      && var was, now := users[a.email], Step(users, a)[a.email];
      && now.disabled == was.disabled && now.mfaEnabled == was.mfaEnabled
      && if a.correct then
           && now.failedAttempts == 0 && now.lockedUntil == None
           && now.lastCountry == (if a.country == None then was.lastCountry else a.country)
           && Judge(users, a) == Success(was.mfaEnabled,
                                         was.lastCountry != None && a.country != None && was.lastCountry != a.country)
         else
           && now.failedAttempts == was.failedAttempts + 1 && now.lastCountry == was.lastCountry
           && now.lockedUntil == (if was.failedAttempts >= 4 then Some(a.comparedAt + 900_000) else was.lockedUntil)
           && Judge(users, a) == BadPassword(was.failedAttempts >= 4)
  {
  }

  class AuthService {
    var users: Users

    constructor (users: Users)
      ensures this.users == users
    {
      this.users := users;
    }

    method Login(a: Attempt) returns (r: Outcome)
      modifies this
      ensures users == Step(old(users), a)
      ensures r == Judge(old(users), a)
    {
      if a.email !in users { return UnknownUser; }
      var user := users[a.email];
      if user.disabled { return Disabled; }
      if user.lockedUntil.Some? && user.lockedUntil.value > a.checkedAt { return Locked; }
      if !a.correct {
        user := user.(failedAttempts := user.failedAttempts + 1);
        var locked := user.failedAttempts >= 5;
        if locked { user := user.(lockedUntil := Some(a.comparedAt + 15 * 60_000)); }
        users := users[a.email := user];
        return BadPassword(locked);
      }
      user := user.(failedAttempts := 0);
      user := user.(lockedUntil := None);
      var review := user.lastCountry.Some? && a.country.Some? && user.lastCountry != a.country;
      if a.country.Some? { user := user.(lastCountry := a.country); }
      users := users[a.email := user];
      r := Success(user.mfaEnabled, review);
    }
  }

  // ---------- Runs ----------

  function Run(users: Users, attempts: seq<Attempt>): Users {
    if attempts == [] then users else Step(Run(users, attempts[..|attempts| - 1]), attempts[|attempts| - 1])
  }

  /** Calls follow one another on a clock that does not go back, inside an interval. */
  predicate InOrder(attempts: seq<Attempt>, from: int, to: int) {
    && (forall i :: 0 <= i < |attempts| ==>
      from <= attempts[i].checkedAt <= attempts[i].comparedAt && attempts[i].checkedAt <= to)
    && (forall i, j :: 0 <= i < j < |attempts| ==> attempts[i].comparedAt <= attempts[j].checkedAt)
  }

  function OutcomeAt(users: Users, attempts: seq<Attempt>, i: nat): Outcome
    requires i < |attempts|
  {
    Judge(Run(users, attempts[..i]), attempts[i])
  }

  /** No call of the run logs the account in. */
  predicate NoSuccess(users: Users, attempts: seq<Attempt>, email: Text) {
    forall i :: 0 <= i < |attempts| && attempts[i].email == email ==> !OutcomeAt(users, attempts, i).Success?
  }

  predicate Compares(o: Outcome) { o.BadPassword? || o.Success? }

  /** How many passwords were compared for an account. */
  function Comparisons(users: Users, attempts: seq<Attempt>, email: Text): nat {
    if attempts == [] then 0
    else
      var n := |attempts| - 1;
      Comparisons(users, attempts[..n], email)
      + if attempts[n].email == email && Compares(OutcomeAt(users, attempts, n)) then 1 else 0
  }

  // ---------- A lock holds ----------

  lemma {:induction false} LockKept(users: Users, attempts: seq<Attempt>, email: Text, until: int)
    requires email in users && users[email].lockedUntil == Some(until)
    requires forall i :: 0 <= i < |attempts| ==> attempts[i].checkedAt < until
    ensures email in Run(users, attempts) && Run(users, attempts)[email] == users[email]
  {
    if attempts == [] {
    } else {
      LockKept(users, attempts[..|attempts| - 1], email, until);
    }
  }

  lemma {:induction false} RunFrom(users: Users, attempts: seq<Attempt>, n: nat)
    requires n <= |attempts|
    ensures Run(users, attempts) == Run(Run(users, attempts[..n]), attempts[n..])
  {
    hide Step;
    if n == |attempts| {
      assert attempts[..n] == attempts && attempts[n..] == [];
    } else {
      var last := |attempts| - 1;
      RunFrom(users, attempts[..last], n);
      assert attempts[..last][..n] == attempts[..n] && attempts[..last][n..] == attempts[n..][..|attempts[n..]| - 1];
    }
  }

  /** After the failure that locks an account, every call for it in the next 900000 milliseconds is refused
      without a comparison, right password or not. */
  lemma LockHolds(users: Users, attempts: seq<Attempt>, i: nat, j: nat, from: int, to: int)
    requires InOrder(attempts, from, to) && i < j < |attempts| && attempts[j].email == attempts[i].email
    requires OutcomeAt(users, attempts, i) == BadPassword(true)
    requires attempts[j].checkedAt < attempts[i].comparedAt + 900_000
    ensures OutcomeAt(users, attempts, j) == Locked
  {
    var email, until := attempts[i].email, attempts[i].comparedAt + 900_000;
    var before := attempts[..j];
    RunFrom(users, before, i + 1);
    assert before[..i + 1][..i] == attempts[..i] && before[..i + 1] == attempts[..i] + [attempts[i]];
    var between := before[i + 1..];
    forall m | 0 <= m < |between| ensures between[m].checkedAt < until {
      assert between[m] == attempts[i + 1 + m];
    }
    LockKept(Run(users, before[..i + 1]), between, email, until);
  }

  // ---------- The rate bound ----------

  /** After n comparisons without a success the counter has reached n, and from the fifth on the lock
      reaches one period further with each. */
  ghost predicate Paced(u: Account, n: nat, from: int, to: int) {
    && u.failedAttempts >= n
    && (n >= LIMIT ==> u.lockedUntil.Some? && u.lockedUntil.value >= from + LOCK * (n - LIMIT + 1))
    && (n > LIMIT ==> from + LOCK * (n - LIMIT) <= to)
  }

  lemma PacedStep(u: Account, n: nat, a: Attempt, from: int, to: int)
    requires Paced(u, n, from, to) && from <= a.checkedAt <= a.comparedAt && a.checkedAt <= to
    requires !LockedAt(u, a.checkedAt)
    ensures Paced(u.(failedAttempts := u.failedAttempts + 1,
                     lockedUntil :=
                       if u.failedAttempts + 1 >= LIMIT then
                         Some(a.comparedAt + LOCK)
                       else u.lockedUntil), n + 1, from, to)
  {
  }

  lemma OneMore(users: Users, a: Attempt, email: Text, n: nat, from: int, to: int)
    requires email in users && Paced(users[email], n, from, to)
    requires from <= a.checkedAt <= a.comparedAt && a.checkedAt <= to
    requires (a.email == email ==> !Judge(users, a).Success?)
    ensures email in Step(users, a)
    ensures Paced(Step(users, a)[email], n + if a.email == email && Compares(Judge(users, a)) then 1 else 0, from, to)
  {
    hide Paced;
    if a.email == email && Judge(users, a).BadPassword? { PacedStep(users[email], n, a, from, to); }
  }

  lemma NoSuccessBefore(users: Users, attempts: seq<Attempt>, email: Text)
    requires attempts != [] && NoSuccess(users, attempts, email)
    ensures NoSuccess(users, attempts[..|attempts| - 1], email)
  {
    hide Run, Judge;
    var before := attempts[..|attempts| - 1];
    assert forall i :: 0 <= i < |before| ==> before[..i] == attempts[..i];
  }

  lemma {:induction false} RunPaced(users: Users, attempts: seq<Attempt>, email: Text, from: int, to: int)
    requires email in users && InOrder(attempts, from, to) && NoSuccess(users, attempts, email)
    ensures email in Run(users, attempts)
    ensures Paced(Run(users, attempts)[email], Comparisons(users, attempts, email), from, to)
  {
    hide Paced, Judge, Step;
    if attempts == [] {
      PacedStart(users[email], from, to);
    } else {
      var n := |attempts| - 1;
      NoSuccessBefore(users, attempts, email);
      RunPaced(users, attempts[..n], email, from, to);
      OneMore(Run(users, attempts[..n]), attempts[n], email, Comparisons(users, attempts[..n], email), from, to);
    }
  }

  lemma PacedStart(u: Account, from: int, to: int)
    ensures Paced(u, 0, from, to)
  {
  }

  /** In any stretch without a success that spans T milliseconds, at most 5 + floor(T / 900000) passwords
      are compared for an account, whatever state it starts in. */
  lemma RateBound(users: Users, attempts: seq<Attempt>, email: Text, from: int, to: int)
    requires from <= to && InOrder(attempts, from, to) && NoSuccess(users, attempts, email)
    ensures Comparisons(users, attempts, email) <= 5 + (to - from) / 900_000
  {
    hide Comparisons, InOrder, NoSuccess, Run;
    var n := Comparisons(users, attempts, email);
    if email in users {
      RunPaced(users, attempts, email, from, to);
      if n > LIMIT { Periods(n - LIMIT, to - from); }
    } else {
      UnknownComparesNothing(users, attempts, email);
    }
  }

  lemma Periods(k: int, span: int)
    requires LOCK * k <= span
    ensures k <= span / LOCK
  {
  }

  lemma {:induction false} UnknownComparesNothing(users: Users, attempts: seq<Attempt>, email: Text)
    requires email !in users
    ensures email !in Run(users, attempts) && Comparisons(users, attempts, email) == 0
  {
    if attempts == [] {
    } else {
      UnknownComparesNothing(users, attempts[..|attempts| - 1], email);
    }
  }

  // ---------- The bound is reached ----------

  /** Five wrong passwords at once, then one each time the lock lapses. */
  function Guesses(email: Text, k: nat): seq<Attempt> {
    seq(LIMIT + k, i requires 0 <= i < LIMIT + k => Guess(email, i))
  }

  function Guess(email: Text, i: int): Attempt {
    var at := if i < LIMIT then 0 else LOCK * (i - LIMIT + 1);
    Attempt(email, false, None, at, at)
  }

  function Fresh(email: Text): Users { map[email := Account(0, None, None, false, false)] }

  lemma {:induction false} GuessesRun(email: Text, k: nat, n: nat)
    requires n <= LIMIT + k
    ensures Comparisons(Fresh(email), Guesses(email, k)[..n], email) == n
    ensures forall i :: 0 <= i < n ==> OutcomeAt(Fresh(email), Guesses(email, k)[..n], i).BadPassword?
    ensures Run(Fresh(email), Guesses(email, k)[..n]) == Guessed(email, n)
  {
    hide Judge, Step;
    if n == 0 {
    } else {
      var g := Guesses(email, k)[..n];
      assert g[..n - 1] == Guesses(email, k)[..n - 1];
      GuessesRun(email, k, n - 1);
      assert g[n - 1] == Guess(email, n - 1);
      GuessFails(email, n - 1);
      forall i | 0 <= i < n ensures OutcomeAt(Fresh(email), g, i).BadPassword? {
        if i < n - 1 {
          assert g[..i] == g[..n - 1][..i];
          assert OutcomeAt(Fresh(email), g[..n - 1], i).BadPassword?;
        }
      }
    }
  }

  function Guessed(email: Text, n: nat): Users {
    map[email := Account(n, if n < LIMIT then None else Some(LOCK * (n - LIMIT + 1)), None, false, false)]
  }

  lemma GuessFails(email: Text, n: nat)
    ensures Judge(Guessed(email, n), Guess(email, n)).BadPassword?
    ensures Step(Guessed(email, n), Guess(email, n)) == Guessed(email, n + 1)
  {
  }

  lemma BoundIsReached(email: Text, k: nat)
    ensures InOrder(Guesses(email, k), 0, 900_000 * k) && NoSuccess(Fresh(email), Guesses(email, k), email)
    ensures Comparisons(Fresh(email), Guesses(email, k), email) == 5 + k
  {
    hide Run, Comparisons, Step, Judge;
    GuessesRun(email, k, LIMIT + k);
    assert Guesses(email, k)[..LIMIT + k] == Guesses(email, k);
  }
}
