/** Runs that attain the bounds on second-factor login, and one that breaks its window. */
module MfaRuns {
  import opened CanonicalJson
  import opened MfaLogin

  lemma RunLast(before: seq<Timed>, step: Step, now: int)
    ensures Run(before + [Timed(step, now)]) == Next(Run(before), step, now)
  {
    assert (before + [Timed(step, now)])[..|before|] == before;
  }

  /** One call from start to session, with nothing in between. */
  function Login(i: nat, token: Text, link: Link): seq<Timed> {
    [Timed(Begin(token), 0), Timed(Increment(i, link), 0), Timed(CheckCode(i, true), 0), Timed(SetMarker(i, link), 0),
     Timed(JudgeMarker(i), 0), Timed(ClearCounter(i, link), 0), Timed(Finish(i), 0)]
  }

  lemma LoginRuns(before: seq<Timed>, token: Text, link: Link)
    requires link == Answered ==> before == []
    ensures Run(before + Login(|Run(before).calls|, token, link)).calls ==
            Run(before).calls + [Call(token, Session, 1, link != Answered, true, true, true, link != Answered)]
  {
    hide Run, Next;
    var i := |Run(before).calls|;
    var l := Login(i, token, link);
    if link == Answered { RunOfNothing(); }
    assert before + l[..0] == before;
    LoginPrefix(before, l, 0); LoginPrefix(before, l, 1); LoginPrefix(before, l, 2); LoginPrefix(before, l, 3);
    LoginPrefix(before, l, 4); LoginPrefix(before, l, 5); LoginPrefix(before, l, 6);
    assert l[..7] == l;
    LoginCounts(Run(before), token, link);
    LoginMarks(Run(before + l[..3]), i, token, link);
  }

  lemma LoginCounts(s: State, token: Text, link: Link)
    requires link == Answered ==> s == State(map[], [])
    ensures var i := |s.calls|;
      var r := Next(Next(Next(s, Begin(token), 0), Increment(i, link), 0), CheckCode(i, true), 0);
      r.calls == s.calls + [Call(token, Marking, 1, link != Answered, true, true, false, false)]
        && (link == Answered ==> ConsumeKey(token) !in r.store)
  {
    var s1 := Next(s, Begin(token), 0);
    var s2 := Next(s1, Increment(|s.calls|, link), 0);
    assert s2.calls == s.calls + [Call(token, Checking, 1, link != Answered, false, false, false, false)];
  }

  lemma LoginMarks(s: State, i: nat, token: Text, link: Link)
    requires |s.calls| == i + 1 && s.calls[i] == Call(token, Marking, 1, link != Answered, true, true, false, false)
    requires link == Answered ==> ConsumeKey(token) !in s.store
    ensures Next(Next(Next(Next(s, SetMarker(i, link), 0), JudgeMarker(i), 0), ClearCounter(i, link), 0), Finish(i),
                 0).calls ==
            s.calls[..i] + [Call(token, Session, 1, link != Answered, true, true, true, link != Answered)]
  {
    var s1 := Next(s, SetMarker(i, link), 0);
    assert s1.calls == s.calls[..i] + [Call(token, Judging, 1, link != Answered, true, true, true, link != Answered)];
    var s2 := Next(s1, JudgeMarker(i), 0);
    var s3 := Next(s2, ClearCounter(i, link), 0);
    assert s3.calls == s.calls[..i] + [Call(token, Finishing, 1, link != Answered, true, true, true, link != Answered)];
  }

  lemma RunOfNothing()
    ensures Run([]) == State(map[], [])
  {
  }

  lemma LoginPrefix(before: seq<Timed>, l: seq<Timed>, k: nat)
    requires k < |l|
    ensures Run(before + l[..k + 1]) == Next(Run(before + l[..k]), l[k].step, l[k].now)
  {
    assert before + l[..k + 1] == (before + l[..k]) + [l[k]];
    RunLast(before + l[..k], l[k].step, l[k].now);
  }

  /** One call that is answered, then n that are not. */
  function Logins(n: nat, token: Text, link: Link): seq<Timed> {
    if n == 0 then Login(0, token, Answered) else Logins(n - 1, token, link) + Login(n, token, link)
  }

  /** Whichever way answers go missing, one token then opens any number of sessions: the bound is attained. */
  lemma {:induction false} UnansweredReplays(n: nat, token: Text, link: Link)
    requires link != Answered
    ensures Tally(Run(Logins(n, token, link)).calls, IsSession(token)) == n + 1
    ensures Tally(Run(Logins(n, token, link)).calls, IsPassedUnanswered(token)) == n
    ensures |Run(Logins(n, token, link)).calls| == n + 1
  {
    hide Run, Login, Tally;
    var before := if n == 0 then [] else Logins(n - 1, token, link);
    if n == 0 {
      RunOfNothing();
      assert before + Login(0, token, Answered) == Logins(0, token, link);
      TallyNone([], IsSession(token));
      TallyNone([], IsPassedUnanswered(token));
    } else {
      UnansweredReplays(n - 1, token, link);
    }
    LoginRuns(before, token, if n == 0 then Answered else link);
    var c := Call(token, Session, 1, n != 0, true, true, true, n != 0);
    TallyGrows(Run(before).calls, c, IsSession(token));
    TallyGrows(Run(before).calls, c, IsPassedUnanswered(token));
  }

  /** Two calls start together; the second sets its marker when the first one's has expired. */
  function Late(token: Text): seq<Timed> { BothStart(token) + FirstEnds() + SecondEnds() }

  function BothStart(token: Text): seq<Timed> {
    [Timed(Begin(token), 0), Timed(Begin(token), 0), Timed(Increment(1, Answered), 0), Timed(CheckCode(1, true), 0),
     Timed(Increment(0, Answered), 0), Timed(CheckCode(0, true), 0)]
  }

  function FirstEnds(): seq<Timed> {
    [Timed(SetMarker(0, Answered), 0), Timed(JudgeMarker(0), 0), Timed(ClearCounter(0, Answered), 0),
     Timed(Finish(0), 0)]
  }

  function SecondEnds(): seq<Timed> {
    [Timed(SetMarker(1, Answered), 300_000), Timed(JudgeMarker(1), 300_000), Timed(ClearCounter(1, Answered), 300_000),
     Timed(Finish(1), 300_000)]
  }

  /** So the window matters: a call that outlives the marker opens a second session with a working store. */
  lemma LateCallWinsAgain(token: Text)
    ensures Available(Late(token))
    ensures Run(Late(token)).calls ==
      [Call(token, Session, 2, false, true, true, true, false), Call(token, Session, 1, false, true, true, true, false)]
  {
    hide Run, BothStart, FirstEnds, SecondEnds, AfterChecks, AfterFirst;
    BothStartRuns(token);
    FirstEndsRuns(BothStart(token), token);
    SecondEndsRuns(BothStart(token) + FirstEnds(), token);
    LateAnswered(token);
  }

  lemma LateAnswered(token: Text)
    ensures Available(Late(token))
  {
  }

  lemma BothStartRuns(token: Text)
    ensures Run(BothStart(token)) == AfterChecks(token)
  {
    hide Run, Next;
    var l := BothStart(token);
    RunOfNothing();
    assert [] + l[..0] == [] && [] + l[..6] == l;
    LoginPrefix([], l, 0); LoginPrefix([], l, 1); LoginPrefix([], l, 2); LoginPrefix([], l, 3);
    LoginPrefix([], l, 4); LoginPrefix([], l, 5);
    BothCheck(token);
  }

  lemma FirstEndsRuns(before: seq<Timed>, token: Text)
    requires Run(before) == AfterChecks(token)
    ensures Run(before + FirstEnds()) == AfterFirst(token)
  {
    hide Run, Next;
    var l := FirstEnds();
    assert before + l[..0] == before && l[..4] == l;
    LoginPrefix(before, l, 0); LoginPrefix(before, l, 1); LoginPrefix(before, l, 2); LoginPrefix(before, l, 3);
    FirstWins(token);
  }

  lemma SecondEndsRuns(before: seq<Timed>, token: Text)
    requires Run(before) == AfterFirst(token)
    ensures Run(before + SecondEnds()).calls ==
      [Call(token, Session, 2, false, true, true, true, false), Call(token, Session, 1, false, true, true, true, false)]
  {
    hide Run, Next;
    var l := SecondEnds();
    assert before + l[..0] == before && l[..4] == l;
    LoginPrefix(before, l, 0); LoginPrefix(before, l, 1); LoginPrefix(before, l, 2); LoginPrefix(before, l, 3);
    SecondWins(token);
  }

  const PASSED := Call([], Marking, 1, false, true, true, false, false)
  function AfterChecks(token: Text): State {
    State(map[FailureKey(token) := Entry(2, TTL)], [PASSED.(token := token, attempts := 2), PASSED.(token := token)])
  }
  function AfterFirst(token: Text): State {
    State(map[ConsumeKey(token) := Entry(1, TTL)],
          [Call(token, Session, 2, false, true, true, true, false), PASSED.(token := token)])
  }

  lemma BothCheck(token: Text)
    ensures
      var s2 := Next(Next(State(map[], []), Begin(token), 0), Begin(token), 0);
      var s4 := Next(Next(s2, Increment(1, Answered), 0), CheckCode(1, true), 0);
      Next(Next(s4, Increment(0, Answered), 0), CheckCode(0, true), 0) == AfterChecks(token)
  {
    var s2 := Next(Next(State(map[], []), Begin(token), 0), Begin(token), 0);
    assert s2 == State(map[], [Started(token), Started(token)]);
    var s4 := Next(Next(s2, Increment(1, Answered), 0), CheckCode(1, true), 0);
    assert s4 == State(map[FailureKey(token) := Entry(1, TTL)], [Started(token), PASSED.(token := token)]);
  }

  lemma FirstWins(token: Text)
    ensures
      var s2 := Next(Next(AfterChecks(token), SetMarker(0, Answered), 0), JudgeMarker(0), 0);
      Next(Next(s2, ClearCounter(0, Answered), 0), Finish(0), 0) == AfterFirst(token)
  {
    hide Next;
    FirstMarks(token);
    FirstClears(token);
  }

  function AfterMarker(token: Text): State {
    State(map[FailureKey(token) := Entry(2, TTL), ConsumeKey(token) := Entry(1, TTL)],
          [Call(token, Clearing, 2, false, true, true, true, false), PASSED.(token := token)])
  }

  lemma FirstMarks(token: Text)
    ensures Next(Next(AfterChecks(token), SetMarker(0, Answered), 0), JudgeMarker(0), 0) == AfterMarker(token)
  {
  }

  lemma FirstClears(token: Text)
    ensures Next(Next(AfterMarker(token), ClearCounter(0, Answered), 0), Finish(0), 0) == AfterFirst(token)
  {
  }

  lemma SecondWins(token: Text)
    ensures Next(Next(Next(Next(AfterFirst(token), SetMarker(1, Answered), TTL), JudgeMarker(1), TTL),
                      ClearCounter(1, Answered), TTL), Finish(1), TTL).calls ==
            [Call(token, Session, 2, false, true, true, true, false),
             Call(token, Session, 1, false, true, true, true, false)]
  {
    var s1 := Next(AfterFirst(token), SetMarker(1, Answered), TTL);
    assert s1.calls[1] == Call(token, Judging, 1, false, true, true, true, false);
  }

  // ---------- Ten codes ----------

  /** A call that asks for a code check. */
  function Guess(i: nat, token: Text, correct: bool): seq<Timed> {
    [Timed(Begin(token), 0), Timed(Increment(i, Answered), 0), Timed(CheckCode(i, correct), 0)]
  }

  /** The counter, and whether the token was used, at instant 0. */
  function Guessed(s: State, token: Text): nat { Count(s.store, FailureKey(token), 0) }
  predicate Unused(s: State, token: Text) { ConsumeKey(token) !in s.store }

  lemma GuessRuns(before: seq<Timed>, token: Text, correct: bool)
    requires Guessed(Run(before), token) < LIMIT
    ensures var s, r := Run(before), Run(before + Guess(|Run(before).calls|, token, correct));
      && Guessed(r, token) == Guessed(s, token) + 1 && (Unused(s, token) ==> Unused(r, token))
      && r.calls ==
        s.calls + [Call(token, if correct then Marking else Rejected, Guessed(s, token) + 1, false, true, correct,
                        false, false)]
  {
    hide Run, Next, Guessed, Unused;
    var l := Guess(|Run(before).calls|, token, correct);
    assert before + l[..0] == before && l[..3] == l;
    LoginPrefix(before, l, 0); LoginPrefix(before, l, 1); LoginPrefix(before, l, 2);
    GuessSteps(Run(before), token, correct);
  }

  lemma GuessSteps(s: State, token: Text, correct: bool)
    requires Guessed(s, token) < LIMIT
    ensures var i := |s.calls|;
      var r := Next(Next(Next(s, Begin(token), 0), Increment(i, Answered), 0), CheckCode(i, correct), 0);
      && Guessed(r, token) == Guessed(s, token) + 1 && (Unused(s, token) ==> Unused(r, token))
      && r.calls ==
        s.calls + [Call(token, if correct then Marking else Rejected, Guessed(s, token) + 1, false, true, correct,
                        false, false)]
  {
    var s1 := Next(s, Begin(token), 0);
    var s2 := Next(s1, Increment(|s.calls|, Answered), 0);
    assert s2.calls == s.calls + [Call(token, Checking, Guessed(s, token) + 1, false, false, false, false, false)];
  }

  /** Wrong guesses one after another. */
  function Guesses(first: nat, n: nat, token: Text): seq<Timed> {
    if n == 0 then [] else Guesses(first, n - 1, token) + Guess(first + n - 1, token, false)
  }

  lemma {:induction false} GuessesRun(before: seq<Timed>, n: nat, token: Text)
    requires Guessed(Run(before), token) + n <= LIMIT
    ensures var s, r := Run(before), Run(before + Guesses(|Run(before).calls|, n, token));
      && Guessed(r, token) == Guessed(s, token) + n && (Unused(s, token) ==> Unused(r, token))
      && |r.calls| == |s.calls| + n && Tally(r.calls, IsChecked(token)) == Tally(s.calls, IsChecked(token)) + n
  {
    hide Run, Guessed, Unused, Tally, Guess;
    var first := |Run(before).calls|;
    if n == 0 {
      assert before + Guesses(first, 0, token) == before;
    } else {
      GuessesRun(before, n - 1, token);
      var middle := before + Guesses(first, n - 1, token);
      GuessRuns(middle, token, false);
      assert before + Guesses(first, n, token) == middle + Guess(first + n - 1, token, false);
      TallyGrows(Run(middle).calls,
                 Call(token, Rejected, Guessed(Run(middle), token) + 1, false, true, false, false, false),
                 IsChecked(token));
    }
  }

  /** The last call gets past the marker and clears the counter. */
  function Pass(i: nat): seq<Timed> {
    [Timed(SetMarker(i, Answered), 0), Timed(JudgeMarker(i), 0), Timed(ClearCounter(i, Answered), 0)]
  }

  lemma PassRuns(before: seq<Timed>, i: nat, token: Text)
    requires |Run(before).calls| == i + 1 && Unused(Run(before), token)
    requires Run(before).calls[i].token == token && Run(before).calls[i].stage == Marking
    requires Run(before).calls[i].checked
    ensures var s, r := Run(before), Run(before + Pass(i));
      && Guessed(r, token) == 0 && |r.calls| == i + 1 && r.calls[..i] == s.calls[..i] && IsChecked(token)(r.calls[i])
  {
    hide Run, Next, Guessed, Unused;
    var l := Pass(i);
    assert before + l[..0] == before && l[..3] == l;
    LoginPrefix(before, l, 0); LoginPrefix(before, l, 1); LoginPrefix(before, l, 2);
    PassSteps(Run(before), i, token);
  }

  lemma PassSteps(s: State, i: nat, token: Text)
    requires |s.calls| == i + 1 && Unused(s, token)
    requires s.calls[i].token == token && s.calls[i].stage == Marking && s.calls[i].checked
    ensures var r := Next(Next(Next(s, SetMarker(i, Answered), 0), JudgeMarker(i), 0), ClearCounter(i, Answered), 0);
      && Guessed(r, token) == 0 && |r.calls| == i + 1 && r.calls[..i] == s.calls[..i] && IsChecked(token)(r.calls[i])
  {
    var s1 := Next(s, SetMarker(i, Answered), 0);
    assert s1.calls == s.calls[..i] + [s.calls[i].(stage := Judging, first := true, markedUnanswered := false)];
    var s2 := Next(s1, JudgeMarker(i), 0);
    assert s2.calls == s.calls[..i] + [s1.calls[i].(stage := Clearing)];
  }

  /** Four wrong codes, a right one, and five more wrong ones after the counter was cleared. */
  function Ten(token: Text): seq<Timed> {
    Guesses(0, 4, token) + Guess(4, token, true) + Pass(4) + Guesses(5, 5, token)
  }

  /** The bound of ten is attained, with a store that answers every command, at one instant. */
  lemma TenIsReached(token: Text)
    ensures Available(Ten(token)) && Within(Ten(token), token, 0)
    ensures Tally(Run(Ten(token)).calls, IsChecked(token)) == 10
  {
    hide Run, Guesses, Guess, Pass, Tally, Guessed, Unused;
    var a := Guesses(0, 4, token);
    var b := a + Guess(4, token, true);
    var c := b + Pass(4);
    NothingGuessed(token);
    GuessesRun([], 4, token);
    assert [] + a == a;
    GuessRuns(a, token, true);
    var call := Run(b).calls[4];
    TallyGrows(Run(a).calls, call, IsChecked(token));
    PassRuns(b, 4, token);
    SameTally(Run(b).calls, Run(c).calls, 4, IsChecked(token));
    GuessesRun(c, 5, token);
    TenAtOnce(token);
  }

  lemma NothingGuessed(token: Text)
    ensures Run([]).calls == [] && Guessed(Run([]), token) == 0 && Unused(Run([]), token)
    ensures Tally([], IsChecked(token)) == 0
  {
  }

  lemma SameTally(a: seq<Call>, b: seq<Call>, n: nat, p: Call -> bool)
    requires |a| == |b| == n + 1 && a[..n] == b[..n] && p(a[n]) == p(b[n])
    ensures Tally(a, p) == Tally(b, p)
  {
  }

  /** Commands answered, at instant 0. */
  predicate AtOnce(steps: seq<Timed>) {
    forall i :: 0 <= i < |steps| ==> IsAnswered(steps[i].step) && steps[i].now == 0
  }

  lemma {:induction false} GuessesAtOnce(first: nat, n: nat, token: Text)
    ensures AtOnce(Guesses(first, n, token))
  {
    if n == 0 {
    } else {
      GuessesAtOnce(first, n - 1, token);
    }
  }

  lemma TenAtOnce(token: Text)
    ensures Available(Ten(token)) && Within(Ten(token), token, 0)
  {
    hide Guesses, Run, Enabled, StepToken;
    GuessesAtOnce(0, 4, token);
    GuessesAtOnce(5, 5, token);
    assert AtOnce(Ten(token));
  }
}
