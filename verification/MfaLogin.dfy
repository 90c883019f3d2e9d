/** Second-factor login: any number of `verifyMfa` calls, interleaved at their awaits, over one store. */
module MfaLogin {
  import opened Prelude
  import opened CanonicalJson

  const TTL := 300_000
  const LIMIT := 5

  // ---------- The key-value store ----------

  /** The two keys derived from a challenge token: their prefixes differ and the token is hashed injectively. */
  datatype Key = FailureKey(token: Text) | ConsumeKey(token: Text)

  datatype Entry = Entry(value: nat, expiresAt: int)
  type Store = map<Key, Entry>

  /** The value seen at an instant; an expired key is absent. */
  function Seen(s: Store, k: Key, now: int): Option<nat> {
    if k in s && now < s[k].expiresAt then Some(s[k].value) else None
  }

  /** INCR, and EXPIRE when the counter is new. */
  function Incremented(s: Store, k: Key, now: int): Store {
    if Seen(s, k, now).Some? then s[k := s[k].(value := s[k].value + 1)] else s[k := Entry(1, now + TTL)]
  }

  function Count(s: Store, k: Key, now: int): nat { if Seen(s, k, now).Some? then Seen(s, k, now).value else 0 }

  /** What becomes of a command: it is done and answered, it is done and the answer is lost, or it never
      reaches the store. The client reports the last two in the same way. */
  datatype Link = Answered | AnswerLost | Unreachable

  class Dragonfly {
    var data: Store

    constructor ()
      ensures data == map[]
    {
      data := map[];
    }

    /** Without an answer the result is undefined. */
    method Increment(k: Key, link: Link, now: int) returns (r: Option<nat>)
      modifies this
      ensures data == if link == Unreachable then old(data) else Incremented(old(data), k, now)
      ensures link != Unreachable ==> k in data && data - {k} == old(data) - {k}
      ensures link != Unreachable ==>
        if k in old(data) && now < old(data)[k].expiresAt
        then data[k] == Entry(old(data)[k].value + 1, old(data)[k].expiresAt)
        else data[k] == Entry(1, now + 300_000)
      ensures r == if link == Answered then Some(Count(old(data), k, now) + 1) else None
    {
      if link == Unreachable { return None; }
      var value := 1;
      if k in data && now < data[k].expiresAt {
        value := data[k].value + 1;
        data := data[k := Entry(value, data[k].expiresAt)];
      } else {
        data := data[k := Entry(1, now + TTL)];
      }
      r := if link == Answered then Some(value) else None;
    }

    /** Without an answer the result is true. */
    method SetIfAbsent(k: Key, value: nat, link: Link, now: int) returns (created: bool)
      modifies this
      ensures created <==> link != Answered || Seen(old(data), k, now).None?
      ensures data ==
        if link != Unreachable && Seen(old(data), k, now).None? then
          old(data)[k := Entry(value, now + 300_000)]
        else old(data)
    {
      if link == Unreachable { return true; }
      created := true;
      if k in data && now < data[k].expiresAt {
        created := link != Answered;
      } else {
        data := data[k := Entry(value, now + TTL)];
      }
    }

    method Del(k: Key, link: Link)
      modifies this
      ensures data == if link == Unreachable then old(data) else old(data) - {k}
    {
      if link != Unreachable { data := data - {k}; }
    }
  }

  // ---------- One call, and its history ----------

  datatype Stage = Counting | Checking | Marking | Judging | Clearing | Finishing | Session | Rejected

  /** `attempts` and `first` are what the awaits returned; the two other
      marks tell which command was not answered. */
  datatype Call = Call(token: Text, stage: Stage, attempts: nat, countedUnanswered: bool, checked: bool, correct: bool,
                       first: bool, markedUnanswered: bool)

  function Started(token: Text): Call { Call(token, Counting, 0, false, false, false, false, false) }

  datatype State = State(store: Store, calls: seq<Call>)

  /** One turn of the event loop or one command at the store. */
  datatype Step =
    | Begin(token: Text)
    | Increment(call: nat, link: Link)
    | CheckCode(call: nat, correct: bool)
    | SetMarker(call: nat, link: Link)
    | JudgeMarker(call: nat)
    | ClearCounter(call: nat, link: Link)
    | Finish(call: nat)

  /** The call a step belongs to is waiting for it. */
  predicate Enabled(s: State, step: Step) {
    match step
    case Begin(_) => true
    case Increment(i, _) => i < |s.calls| && s.calls[i].stage == Counting
    case CheckCode(i, _) => i < |s.calls| && s.calls[i].stage == Checking
    case SetMarker(i, _) => i < |s.calls| && s.calls[i].stage == Marking
    case JudgeMarker(i) => i < |s.calls| && s.calls[i].stage == Judging
    case ClearCounter(i, _) => i < |s.calls| && s.calls[i].stage == Clearing
    case Finish(i) => i < |s.calls| && s.calls[i].stage == Finishing
  }

  function StepToken(s: State, step: Step): Text
    requires Enabled(s, step)
  {
    if step.Begin? then step.token else s.calls[step.call].token
  }

  function NewStore(s: State, step: Step, now: int): Store
    requires Enabled(s, step)
  {
    var t := StepToken(s, step);
    match step
    case Increment(_, link) => if link == Unreachable then s.store else Incremented(s.store, FailureKey(t), now)
    case SetMarker(_, link) =>
      if link != Unreachable && Seen(s.store, ConsumeKey(t), now).None? then
        s.store[ConsumeKey(t) := Entry(1, now + TTL)]
      else s.store
    case ClearCounter(_, link) => if link == Unreachable then s.store else s.store - {FailureKey(t)}
    case _ => s.store
  }

  function NewCall(s: State, step: Step, now: int): Call
    requires Enabled(s, step) && !step.Begin?
  {
    var c := s.calls[step.call];
    match step
    case Increment(_, link) =>
      c.(stage := Checking, attempts := if link == Answered then Count(s.store, FailureKey(c.token), now) + 1 else 1,
         countedUnanswered := link != Answered)
    case CheckCode(_, correct) =>
      if c.attempts > LIMIT then c.(stage := Rejected)
      else c.(stage := if correct then Marking else Rejected, checked := true, correct := correct)
    case SetMarker(_, link) =>
      c.(stage := Judging, first := link != Answered || Seen(s.store, ConsumeKey(c.token), now).None?,
         markedUnanswered := link != Answered)
    case JudgeMarker(_) => c.(stage := if c.first then Clearing else Rejected)
    case ClearCounter(_, _) => c.(stage := Finishing)
    case Finish(_) => c.(stage := Session)
  }

  function Next(s: State, step: Step, now: int): State {
    if !Enabled(s, step) then s
    else State(NewStore(s, step, now),
               if step.Begin? then s.calls + [Started(step.token)] else s.calls[step.call := NewCall(s, step, now)])
  }

  /** `verifyMfa` cut at its awaits. A method of an object that is not waiting for it does nothing. */
  class MfaCalls {
    const dragonfly: Dragonfly
    var calls: seq<Call>

    constructor (dragonfly: Dragonfly)
      ensures this.dragonfly == dragonfly && calls == []
    {
      this.dragonfly := dragonfly;
      calls := [];
    }

    ghost function Now(): State
      reads this, dragonfly
    {
      State(dragonfly.data, calls)
    }

    /** The token has passed `jwt.verify` and its purpose check. */
    method Begin(token: Text, now: int)
      modifies this
      ensures Now() == Next(old(Now()), Step.Begin(token), now)
    {
      calls := calls + [Started(token)];
    }

    method Increment(i: nat, link: Link, now: int)
      modifies this, dragonfly
      ensures Now() == Next(old(Now()), Step.Increment(i, link), now)
    {
      if i >= |calls| || calls[i].stage != Counting { return; }
      var answer := dragonfly.Increment(FailureKey(calls[i].token), link, now);
      var attempts := if answer.Some? then answer.value else 1;
      calls := calls[i := calls[i].(stage := Checking, attempts := attempts, countedUnanswered := link != Answered)];
    }

    method CheckCode(i: nat, correct: bool, now: int)
      modifies this
      ensures Now() == Next(old(Now()), Step.CheckCode(i, correct), now)
    {
      if i >= |calls| || calls[i].stage != Checking { return; }
      if calls[i].attempts > 5 {
        calls := calls[i := calls[i].(stage := Rejected)];
        return;
      }
      calls := calls[i := calls[i].(checked := true, correct := correct)];
      calls := calls[i := calls[i].(stage := if correct then Marking else Rejected)];
    }

    method SetMarker(i: nat, link: Link, now: int)
      modifies this, dragonfly
      ensures Now() == Next(old(Now()), Step.SetMarker(i, link), now)
    {
      if i >= |calls| || calls[i].stage != Marking { return; }
      var first := dragonfly.SetIfAbsent(ConsumeKey(calls[i].token), 1, link, now);
      calls := calls[i := calls[i].(stage := Judging, first := first, markedUnanswered := link != Answered)];
    }

    method JudgeMarker(i: nat, now: int)
      modifies this
      ensures Now() == Next(old(Now()), Step.JudgeMarker(i), now)
    {
      if i >= |calls| || calls[i].stage != Judging { return; }
      calls := calls[i := calls[i].(stage := if calls[i].first then Clearing else Rejected)];
    }

    method ClearCounter(i: nat, link: Link, now: int)
      modifies this, dragonfly
      ensures Now() == Next(old(Now()), Step.ClearCounter(i, link), now)
    {
      if i >= |calls| || calls[i].stage != Clearing { return; }
      dragonfly.Del(FailureKey(calls[i].token), link);
      calls := calls[i := calls[i].(stage := Finishing)];
    }

    method Finish(i: nat, now: int)
      modifies this
      ensures Now() == Next(old(Now()), Step.Finish(i), now)
    {
      if i >= |calls| || calls[i].stage != Finishing { return; }
      calls := calls[i := calls[i].(stage := Session)];
    }
  }

  // ---------- Runs and counts ----------

  datatype Timed = Timed(step: Step, now: int)

  function Run(steps: seq<Timed>): State {
    if steps == [] then State(map[], [])
    else Next(Run(steps[..|steps| - 1]), steps[|steps| - 1].step, steps[|steps| - 1].now)
  }

  /** Every step of a call of the token falls in a window shorter than the keys' life. */
  predicate Within(steps: seq<Timed>, token: Text, since: int) {
    forall i ::
      0 <= i < |steps| && Enabled(Run(steps[..i]), steps[i].step)
        && StepToken(Run(steps[..i]), steps[i].step) == token ==>
      since <= steps[i].now < since + 300_000
  }

  function Tally(calls: seq<Call>, p: Call -> bool): nat {
    if calls == [] then 0 else Tally(calls[..|calls| - 1], p) + if p(calls[|calls| - 1]) then 1 else 0
  }

  predicate Counted(c: Call) { c.stage != Counting }
  predicate Passed(c: Call) { c.first && c.stage in {Judging, Clearing, Finishing, Session} }

  function IsSession(token: Text): Call -> bool { (c: Call) => c.token == token && c.stage == Session }
  function IsChecked(token: Text): Call -> bool { (c: Call) => c.token == token && c.checked }
  function IsPassed(token: Text): Call -> bool { (c: Call) => c.token == token && Passed(c) }
  function IsPassedAnswered(token: Text): Call -> bool {
    (c: Call) => c.token == token && Passed(c) && !c.markedUnanswered
  }
  function IsPassedUnanswered(token: Text): Call -> bool {
    (c: Call) => c.token == token && Passed(c) && c.markedUnanswered
  }
  function IsCleared(token: Text): Call -> bool { (c: Call) => c.token == token && c.stage in {Finishing, Session} }
  function IsCountedAnswered(token: Text): Call -> bool {
    (c: Call) => c.token == token && Counted(c) && !c.countedUnanswered && c.attempts <= LIMIT
  }
  function IsCountedUnanswered(token: Text): Call -> bool {
    (c: Call) => c.token == token && Counted(c) && c.countedUnanswered
  }

  lemma {:induction false} TallyGrows(calls: seq<Call>, c: Call, p: Call -> bool)
    ensures Tally(calls + [c], p) == Tally(calls, p) + if p(c) then 1 else 0
  {
    assert (calls + [c])[..|calls|] == calls;
  }

  lemma {:induction false} TallyUpdate(calls: seq<Call>, i: nat, c: Call, p: Call -> bool)
    requires i < |calls|
    ensures Tally(calls[i := c], p) == Tally(calls, p) - (if p(calls[i]) then 1 else 0) + (if p(c) then 1 else 0)
    decreases |calls|
  {
    var n := |calls| - 1;
    if i == n { assert calls[i := c][..n] == calls[..n]; }
    else {
      assert calls[i := c][..n] == calls[..n][i := c];
      TallyUpdate(calls[..n], i, c, p);
    }
  }

  lemma {:induction false} TallyImplies(calls: seq<Call>, p: Call -> bool, q: Call -> bool, r: Call -> bool)
    requires forall i :: 0 <= i < |calls| && p(calls[i]) ==> q(calls[i]) || r(calls[i])
    ensures Tally(calls, p) <= Tally(calls, q) + Tally(calls, r)
  {
    if calls == [] {
    } else {
      TallyImplies(calls[..|calls| - 1], p, q, r);
    }
  }

  lemma {:induction false} TallyNone(calls: seq<Call>, p: Call -> bool)
    ensures Tally(calls, p) == 0 <==> forall i :: 0 <= i < |calls| ==> !p(calls[i])
  {
    if calls == [] {
    } else {
      TallyNone(calls[..|calls| - 1], p);
    }
  }

  // ---------- The invariant ----------

  /** What every call's record says about itself. */
  predicate CallOk(c: Call) {
    && (c.checked ==> Counted(c) && (c.countedUnanswered || c.attempts <= LIMIT))
    && (c.stage in {Marking, Judging, Clearing, Finishing, Session} ==> c.checked && c.correct)
    && (c.stage in {Clearing, Finishing, Session} ==> c.first)
  }

  ghost predicate Inv(s: State, token: Text, since: int) {
    && (forall i :: 0 <= i < |s.calls| ==> CallOk(s.calls[i]))
    && KeysLive(s, token, since)
    && MarkerInv(s, token)
    && CounterInv(s, token)
  }

  predicate KeysLive(s: State, token: Text, since: int) {
    && (FailureKey(token) in s.store ==> s.store[FailureKey(token)].expiresAt >= since + TTL)
    && (ConsumeKey(token) in s.store ==> s.store[ConsumeKey(token)].expiresAt >= since + TTL)
  }

  ghost predicate MarkerInv(s: State, token: Text) {
    Tally(s.calls, IsPassedAnswered(token)) <= if ConsumeKey(token) in s.store then 1 else 0
  }

  /** The counter bounds the calls allowed to check a code since it was last cleared. */
  ghost predicate CounterInv(s: State, token: Text) {
    var n := if FailureKey(token) in s.store then s.store[FailureKey(token)].value else 0;
    var cleared := Tally(s.calls, IsCleared(token));
    Tally(s.calls, IsCountedAnswered(token)) <= LIMIT * cleared + if n <= LIMIT then n else LIMIT
  }

  lemma InvStep(s: State, token: Text, since: int, step: Step, now: int)
    requires Inv(s, token, since)
    requires Enabled(s, step) && StepToken(s, step) == token ==> since <= now < since + TTL
    ensures Inv(Next(s, step, now), token, since)
  {
    hide Inv, KeysLive, MarkerInv, CounterInv, Next, Enabled, StepToken;
    if Enabled(s, step) {
      CallOkStep(s, token, since, step, now);
      KeysLiveStep(s, token, since, step, now);
      MarkerStep(s, token, since, step, now);
      CounterStep(s, token, since, step, now);
      InvIntro(Next(s, step, now), token, since);
    } else {
      Idle(s, step, now);
    }
  }

  lemma Idle(s: State, step: Step, now: int)
    requires !Enabled(s, step)
    ensures Next(s, step, now) == s
  {
  }

  lemma InvIntro(s: State, token: Text, since: int)
    requires forall i :: 0 <= i < |s.calls| ==> CallOk(s.calls[i])
    requires KeysLive(s, token, since) && MarkerInv(s, token) && CounterInv(s, token)
    ensures Inv(s, token, since)
  {
  }

  lemma CallOkStep(s: State, token: Text, since: int, step: Step, now: int)
    requires Inv(s, token, since) && Enabled(s, step)
    ensures forall i :: 0 <= i < |Next(s, step, now).calls| ==> CallOk(Next(s, step, now).calls[i])
  {
    hide KeysLive, MarkerInv, CounterInv, Incremented, Count, Seen;
  }

  lemma KeysLiveStep(s: State, token: Text, since: int, step: Step, now: int)
    requires Inv(s, token, since) && Enabled(s, step)
    requires StepToken(s, step) == token ==> since <= now < since + TTL
    ensures KeysLive(Next(s, step, now), token, since)
  {
    hide CallOk, MarkerInv, CounterInv;
  }

  lemma MarkerStep(s: State, token: Text, since: int, step: Step, now: int)
    requires Inv(s, token, since) && Enabled(s, step)
    requires StepToken(s, step) == token ==> since <= now < since + TTL
    ensures MarkerInv(Next(s, step, now), token)
  {
    hide CounterInv, Tally;
    if step.Begin? { TallyGrows(s.calls, Started(step.token), IsPassedAnswered(token)); }
    else { TallyUpdate(s.calls, step.call, NewCall(s, step, now), IsPassedAnswered(token)); }
  }

  lemma CounterStep(s: State, token: Text, since: int, step: Step, now: int)
    requires Inv(s, token, since) && Enabled(s, step)
    requires StepToken(s, step) == token ==> since <= now < since + TTL
    ensures CounterInv(Next(s, step, now), token)
  {
    hide MarkerInv, Tally;
    if step.Begin? {
      TallyGrows(s.calls, Started(step.token), IsCleared(token));
      TallyGrows(s.calls, Started(step.token), IsCountedAnswered(token));
    } else {
      TallyUpdate(s.calls, step.call, NewCall(s, step, now), IsCleared(token));
      TallyUpdate(s.calls, step.call, NewCall(s, step, now), IsCountedAnswered(token));
    }
  }

  lemma {:induction false} RunKeepsInv(steps: seq<Timed>, token: Text, since: int)
    requires Within(steps, token, since)
    ensures Inv(Run(steps), token, since)
  {
    hide Inv, Next, Enabled, StepToken;
    if steps == [] { InvEmpty(token, since); }
    else {
      var n := |steps| - 1;
      var before := steps[..n];
      forall i | 0 <= i < n ensures before[..i] == steps[..i] {}
      RunKeepsInv(before, token, since);
      InvStep(Run(before), token, since, steps[n].step, steps[n].now);
    }
  }

  lemma InvEmpty(token: Text, since: int)
    ensures Inv(State(map[], []), token, since)
  {
  }

  // ---------- The main claims ----------

  /** However the calls interleave, a token yields at most one session, plus one for each call whose marker
      was not answered. */
  lemma OneSession(steps: seq<Timed>, token: Text, since: int)
    requires Within(steps, token, since)
    ensures Tally(Run(steps).calls, IsSession(token)) <= 1 + Tally(Run(steps).calls, IsPassedUnanswered(token))
  {
    hide Run, Within, Tally;
    RunKeepsInv(steps, token, since);
    var calls := Run(steps).calls;
    forall i | 0 <= i < |calls| && IsSession(token)(calls[i])
      ensures IsPassedAnswered(token)(calls[i]) || IsPassedUnanswered(token)(calls[i])
    {
      assert CallOk(calls[i]);
    }
    TallyImplies(calls, IsSession(token), IsPassedAnswered(token), IsPassedUnanswered(token));
  }

  /** A session is only opened by a call that was within the limit, gave a correct code and came first. */
  lemma SessionIsEarned(steps: seq<Timed>, token: Text, since: int, i: nat)
    requires Within(steps, token, since) && i < |Run(steps).calls| && Run(steps).calls[i].stage == Session
    ensures var c := Run(steps).calls[i];
      c.checked && c.correct && c.first && (c.countedUnanswered || c.attempts <= 5)
  {
    hide Run, Within, Tally;
    RunKeepsInv(steps, token, since);
    assert CallOk(Run(steps).calls[i]);
  }

  /** The counter is cleared only by calls that got past the marker. */
  lemma ClearedPassed(steps: seq<Timed>, token: Text, since: int)
    requires Within(steps, token, since)
    ensures Tally(Run(steps).calls, IsCleared(token)) <= Tally(Run(steps).calls, IsPassed(token))
    ensures Tally(Run(steps).calls, IsPassed(token)) <= 1 + Tally(Run(steps).calls, IsPassedUnanswered(token))
  {
    hide Run, Within, Tally;
    RunKeepsInv(steps, token, since);
    var calls := Run(steps).calls;
    forall i | 0 <= i < |calls| && IsCleared(token)(calls[i]) ensures IsPassed(token)(calls[i]) {
      assert CallOk(calls[i]);
    }
    TallyNone(calls, Nobody);
    TallyImplies(calls, IsCleared(token), IsPassed(token), Nobody);
    TallyImplies(calls, IsPassed(token), IsPassedAnswered(token), IsPassedUnanswered(token));
  }

  const Nobody: Call -> bool := (c: Call) => false

  /** Codes checked: five for each time the counter starts from nothing, and one for each call whose count
      was not answered. */
  lemma ChecksBound(steps: seq<Timed>, token: Text, since: int)
    requires Within(steps, token, since)
    ensures Tally(Run(steps).calls, IsChecked(token)) <=
      LIMIT * (1 + Tally(Run(steps).calls, IsCleared(token))) + Tally(Run(steps).calls, IsCountedUnanswered(token))
  {
    hide Run, Within, Tally;
    RunKeepsInv(steps, token, since);
    var calls := Run(steps).calls;
    forall i | 0 <= i < |calls| && IsChecked(token)(calls[i])
      ensures IsCountedAnswered(token)(calls[i]) || IsCountedUnanswered(token)(calls[i])
    {
      assert CallOk(calls[i]);
    }
    TallyImplies(calls, IsChecked(token), IsCountedAnswered(token), IsCountedUnanswered(token));
  }

  /** As long as no call of the token has got past the marker, at most five codes were checked, plus one for
      each call whose count was not answered. */
  lemma FiveChecks(steps: seq<Timed>, token: Text, since: int)
    requires Within(steps, token, since) && Tally(Run(steps).calls, IsPassed(token)) == 0
    ensures Tally(Run(steps).calls, IsChecked(token)) <= 5 + Tally(Run(steps).calls, IsCountedUnanswered(token))
  {
    hide Run, Within, Tally;
    ClearedPassed(steps, token, since);
    ChecksBound(steps, token, since);
  }

  /** Ever, at most ten codes are checked for a token, plus one for each call whose count was not answered and
      five for each marker that was not. */
  lemma TenChecks(steps: seq<Timed>, token: Text, since: int)
    requires Within(steps, token, since)
    ensures Tally(Run(steps).calls, IsChecked(token)) <=
      10 + Tally(Run(steps).calls, IsCountedUnanswered(token))
      + 5 * Tally(Run(steps).calls, IsPassedUnanswered(token))
  {
    hide Run, Within, Tally;
    ClearedPassed(steps, token, since);
    ChecksBound(steps, token, since);
  }

  /** Every command of the run was answered. */
  predicate Available(steps: seq<Timed>) { forall i :: 0 <= i < |steps| ==> IsAnswered(steps[i].step) }

  predicate IsAnswered(step: Step) {
    match step
    case Increment(_, link) => link == Answered
    case SetMarker(_, link) => link == Answered
    case ClearCounter(_, link) => link == Answered
    case _ => true
  }

  lemma {:induction false} AlwaysAnswered(steps: seq<Timed>)
    requires Available(steps)
    ensures forall i :: 0 <= i < |Run(steps).calls| ==>
      !Run(steps).calls[i].countedUnanswered && !Run(steps).calls[i].markedUnanswered
  {
    hide Incremented, Count, Seen, NewStore;
    if steps == [] {
    } else {
      AlwaysAnswered(steps[..|steps| - 1]);
    }
  }

  /** With a store that answers: one session per token, at most five codes checked before its marker, and at
      most ten ever. */
  lemma AvailableStore(steps: seq<Timed>, token: Text, since: int)
    requires Available(steps) && Within(steps, token, since)
    ensures Tally(Run(steps).calls, IsSession(token)) <= 1
    ensures Tally(Run(steps).calls, IsPassed(token)) == 0 ==> Tally(Run(steps).calls, IsChecked(token)) <= 5
    ensures Tally(Run(steps).calls, IsChecked(token)) <= 10
  {
    hide Run, Within, Tally, Available;
    AlwaysAnswered(steps);
    TallyNone(Run(steps).calls, IsPassedUnanswered(token));
    TallyNone(Run(steps).calls, IsCountedUnanswered(token));
    OneSession(steps, token, since);
    TenChecks(steps, token, since);
    if Tally(Run(steps).calls, IsPassed(token)) == 0 { FiveChecks(steps, token, since); }
  }
}
