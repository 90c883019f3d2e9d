/** The UI's data loader: overlapping requests, of which only the newest may write. */
module Resource {
  import opened Prelude
  import opened CanonicalJson
  import opened JsonEquality
  import opened JsonTrip

  /** `JSON.stringify`, which gives no text for `undefined`. */
  function DataSignature(v: Json): Option<Text> { if v.Undefined? then None else Some(Print(v, Stringify)) }

  datatype Answer = Waiting | Value(data: Json) | Failure(error: Text)

  /** One request's promise chain: its number, what the loader gave, and whether its last callback has run. */
  datatype Request = Request(id: nat, answer: Answer, done: bool)

  datatype State = State(
    mounted: bool, request: nat, signature: Option<Text>, data: Option<Json>, error: Option<Text>, loading: bool,
    chains: seq<Request>)

  function Initial(): State { State(false, 0, Some([]), None, None, true, []) }

  /** Effects, calls to `reload`, and the callbacks of the chains, each run on its own. */
  datatype Step =
    | Mount
    | Cleanup
    | Reload(silent: bool)
    | Then(i: nat, d: Json)
    | Catch(i: nat, e: Text)
    | Finally(i: nat)

  predicate Enabled(s: State, step: Step) {
    match step
    case Then(i, _) => i < |s.chains| && s.chains[i].answer.Waiting?
    case Catch(i, _) => i < |s.chains| && s.chains[i].answer.Waiting?
    case Finally(i) => i < |s.chains| && !s.chains[i].answer.Waiting? && !s.chains[i].done
    case _ => true
  }

  function Load(s: State, silent: bool): State {
    if !s.mounted then s
    else
      s.(request := s.request + 1, loading := s.loading || !silent, error := None,
         chains := s.chains + [Request(s.request + 1, Waiting, false)])
  }

  /** The guard of every callback. */
  predicate Current(s: State, id: nat) { s.mounted && id == s.request }

  function Receive(s: State, d: Json): State {
    if DataSignature(d) != s.signature then s.(signature := DataSignature(d), data := Some(d)) else s
  }

  function Next(s: State, step: Step): State {
    if !Enabled(s, step) then s
    else
      match step
      case Mount => Load(s.(mounted := true), false)
      case Cleanup => s.(mounted := false, request := s.request + 1)
      case Reload(silent) => Load(s, silent)
      case Then(i, d) =>
        var t := s.(chains := s.chains[i := s.chains[i].(answer := Value(d))]);
        if Current(s, s.chains[i].id) then Receive(t, d) else t
      case Catch(i, e) =>
        var t := s.(chains := s.chains[i := s.chains[i].(answer := Failure(e))]);
        if Current(s, s.chains[i].id) then t.(error := Some(e)) else t
      case Finally(i) =>
        var t := s.(chains := s.chains[i := s.chains[i].(done := true)]);
        if Current(s, s.chains[i].id) then t.(loading := false) else t
  }

  /** Mounting and reloading start a request under the next number: the error goes, the data stays, and the page
      shows loading unless the reload was silent. Unmounted, a reload does nothing. */
  lemma LoadsMean(s: State, step: Step)
    requires step.Mount? || step.Reload?
    ensures var t := Next(s, step);
      if step.Reload? && !s.mounted then t == s
      else
        && t.mounted && t.request == s.request + 1 && t.chains == s.chains + [Request(s.request + 1, Waiting, false)]
        && t.data == s.data && t.signature == s.signature && t.error == None
        && (t.loading <==> step == Mount || step == Reload(false) || s.loading)
  {
  }

  /** Cleaning up unmounts and puts every request out of date; what is shown stays. */
  lemma CleanupMeans(s: State)
    ensures var t := Next(s, Cleanup);
      && !t.mounted && t.request == s.request + 1 && t.chains == s.chains
      && t.data == s.data && t.signature == s.signature && t.error == s.error && t.loading == s.loading
  {
  }

  /** A callback settles its own request only; the page follows it when it is mounted and the request is the
      latest, new data replacing the old only when it has another signature. */
  lemma CallbackMeans(s: State, step: Step)
    requires (step.Then? || step.Catch? || step.Finally?) && step.i < |s.chains|
    requires if step.Finally? then !s.chains[step.i].answer.Waiting? && !s.chains[step.i].done
             else s.chains[step.i].answer.Waiting?
    ensures var t := Next(s, step); var r := s.chains[step.i];
      var shows := s.mounted && r.id == s.request;
      && t.mounted == s.mounted && t.request == s.request
      && t.chains == s.chains[..step.i] + [match step
                                           case Then(_, d) => Request(r.id, Value(d), r.done)
                                           case Catch(_, e) => Request(r.id, Failure(e), r.done)
                                           case _ => Request(r.id, r.answer, true)] + s.chains[step.i + 1..]
      && t.loading == (s.loading && !(step.Finally? && shows))
      && t.error == (if step.Catch? && shows then Some(step.e) else s.error)
      && (if step.Then? && shows && DataSignature(step.d) != s.signature
          then t.data == Some(step.d) && t.signature == DataSignature(step.d)
          else t.data == s.data && t.signature == s.signature)
  {
    hide DataSignature;
  }

  /** The hook's refs and state. */
  class UseResource {
    var mountedRef: bool
    var requestRef: nat
    var signatureRef: Option<Text>
    var data: Option<Json>
    var error: Option<Text>
    var loading: bool
    var chains: seq<Request>

    function Now(): State
      reads this
    {
      State(mountedRef, requestRef, signatureRef, data, error, loading, chains)
    }

    constructor ()
      ensures Now() == Initial()
    {
      mountedRef, requestRef, signatureRef, data, error, loading, chains := false, 0, Some([]), None, None, true, [];
    }

    method LoadData(silent: bool)
      modifies this
      ensures Now() == Load(old(Now()), silent)
    {
      if !mountedRef { return; }
      var requestId := requestRef + 1;
      requestRef := requestId;
      if !silent { loading := true; }
      error := None;
      chains := chains + [Request(requestId, Waiting, false)];
    }

    method OnMount()
      modifies this
      ensures Now() == Next(old(Now()), Mount)
    {
      mountedRef := true;
      LoadData(false);
    }

    method OnCleanup()
      modifies this
      ensures Now() == Next(old(Now()), Cleanup)
    {
      mountedRef := false;
      requestRef := requestRef + 1;
    }

    method OnThen(i: nat, d: Json)
      modifies this
      ensures Now() == Next(old(Now()), Then(i, d))
    {
      if i >= |chains| || !chains[i].answer.Waiting? { return; }
      chains := chains[i := chains[i].(answer := Value(d))];
      if !mountedRef || chains[i].id != requestRef { return; }
      var nextSignature := DataSignature(d);
      if nextSignature != signatureRef {
        signatureRef := nextSignature;
        data := Some(d);
      }
    }

    method OnCatch(i: nat, e: Text)
      modifies this
      ensures Now() == Next(old(Now()), Catch(i, e))
    {
      if i >= |chains| || !chains[i].answer.Waiting? { return; }
      chains := chains[i := chains[i].(answer := Failure(e))];
      if mountedRef && chains[i].id == requestRef { error := Some(e); }
    }

    method OnFinally(i: nat)
      modifies this
      ensures Now() == Next(old(Now()), Finally(i))
    {
      if i >= |chains| || chains[i].answer.Waiting? || chains[i].done { return; }
      chains := chains[i := chains[i].(done := true)];
      if mountedRef && chains[i].id == requestRef { loading := false; }
    }
  }

  // ---------- Runs ----------

  function Run(steps: seq<Step>): State {
    if steps == [] then Initial() else Next(Run(steps[..|steps| - 1]), steps[|steps| - 1])
  }

  /** Loaders deliver plain data. */
  predicate PlainData(steps: seq<Step>) { forall k :: 0 <= k < |steps| && steps[k].Then? ==> WellFormed(steps[k].d) }

  // ---------- The invariant ----------

  /** Requests are numbered upwards, none beyond the counter; while mounted the newest carries its number. */
  predicate Numbered(s: State) {
    && (forall i, j :: 0 <= i < j < |s.chains| ==> s.chains[i].id < s.chains[j].id)
    && (forall i :: 0 <= i < |s.chains| ==> s.chains[i].id <= s.request)
    && (s.mounted ==> s.chains != [] && s.chains[|s.chains| - 1].id == s.request)
  }

  predicate SignatureMatches(s: State) {
    s.signature == if s.data.Some? then DataSignature(s.data.value) else Some([])
  }

  /** What the newest request has done so far is what the hook shows. */
  predicate ShowsNewest(s: State) {
    s.mounted && s.chains != [] ==>
      var newest := s.chains[|s.chains| - 1];
      && (newest.done ==> !newest.answer.Waiting? && !s.loading)
      && s.error == (if newest.answer.Failure? then Some(newest.answer.error) else None)
      && (newest.answer.Value? ==> s.signature == DataSignature(newest.answer.data))
  }

  predicate Inv(s: State) {
    && Numbered(s)
    && SignatureMatches(s)
    && ShowsNewest(s)
    && AllPlain(s)
  }

  predicate AllPlain(s: State) {
    && (s.data.Some? ==> WellFormed(s.data.value))
    && (forall i :: 0 <= i < |s.chains| && s.chains[i].answer.Value? ==> WellFormed(s.chains[i].answer.data))
  }

  lemma InvStep(s: State, step: Step)
    requires Inv(s) && (step.Then? ==> WellFormed(step.d))
    ensures Inv(Next(s, step))
  {
    hide Next, Numbered, SignatureMatches, ShowsNewest, AllPlain;
    NumberedStep(s, step);
    SignatureStep(s, step);
    ShowsStep(s, step);
    PlainStep(s, step);
  }

  lemma NumberedStep(s: State, step: Step)
    requires Numbered(s)
    ensures Numbered(Next(s, step))
  {
    hide Next, Numbered;
    if IsCallback(step) { NumberedCallback(s, step); } else { NumberedOther(s, step); }
  }

  lemma NumberedOther(s: State, step: Step)
    requires Numbered(s) && !IsCallback(step)
    ensures Numbered(Next(s, step))
  {
    hide Receive;
  }

  lemma NumberedCallback(s: State, step: Step)
    requires Numbered(s) && IsCallback(step)
    ensures Numbered(Next(s, step))
  {
    hide Numbered, Load, DataSignature;
    if Enabled(s, step) { NumberedAnswer(s, step.i, Next(s, step)); }
  }

  lemma NumberedAnswer(s: State, i: nat, t: State)
    requires Numbered(s) && i < |s.chains| && t.request == s.request && t.mounted == s.mounted
    requires |t.chains| == |s.chains| && forall j :: 0 <= j < |s.chains| ==> t.chains[j].id == s.chains[j].id
    ensures Numbered(t)
  {
  }

  lemma SignatureStep(s: State, step: Step)
    requires SignatureMatches(s)
    ensures SignatureMatches(Next(s, step))
  {
    hide DataSignature;
  }

  lemma ShowsStep(s: State, step: Step)
    requires Numbered(s) && ShowsNewest(s)
    ensures ShowsNewest(Next(s, step))
  {
    hide DataSignature;
  }

  lemma PlainStep(s: State, step: Step)
    requires AllPlain(s) && (step.Then? ==> WellFormed(step.d))
    ensures AllPlain(Next(s, step))
  {
    hide DataSignature, WellFormed;
  }

  lemma {:induction false} RunInv(steps: seq<Step>)
    requires PlainData(steps)
    ensures Inv(Run(steps))
  {
    hide Inv, Next, WellFormed;
    if steps == [] {
      InvInitial();
    } else {
      RunInv(steps[..|steps| - 1]);
      InvStep(Run(steps[..|steps| - 1]), steps[|steps| - 1]);
    }
  }

  lemma InvInitial()
    ensures Inv(Initial())
  {
  }

  // ---------- The main claims ----------

  /** What the page shows, and the signature kept for it. */
  predicate SameView(s: State, t: State) {
    s.data == t.data && s.error == t.error && s.loading == t.loading && s.signature == t.signature
  }

  /** The newest request, when the page is mounted. */
  function Newest(s: State): Option<nat> { if s.mounted && s.chains != [] then Some(|s.chains| - 1) else None }

  predicate IsCallback(step: Step) { step.Then? || step.Catch? || step.Finally? }

  /** A callback of any request but the newest, or of any request once unmounted, changes nothing shown. */
  lemma StaleNeverWrites(steps: seq<Step>, step: Step)
    requires PlainData(steps) && IsCallback(step) && Newest(Run(steps)) != Some(step.i)
    ensures SameView(Run(steps), Next(Run(steps), step))
  {
    hide Run, WellFormed, DataSignature, SignatureMatches, ShowsNewest;
    RunInv(steps);
  }

  /** The signature kept always belongs to the data held. */
  lemma SignatureIsOfData(steps: seq<Step>)
    requires PlainData(steps)
    ensures Run(steps).data.Some? ==> Run(steps).signature == DataSignature(Run(steps).data.value)
  {
    hide Run, WellFormed;
    RunInv(steps);
  }

  /** The page agrees with the newest request once it has settled: not loading, its error or none, and data
      that is the same JSON as its response. */
  predicate Agrees(s: State, r: Request) {
    && !s.loading
    && s.error == (if r.answer.Failure? then Some(r.answer.error) else None)
    && (r.answer.Value? && !r.answer.data.Undefined? ==> s.data.Some? && Trip(s.data.value) == Trip(r.answer.data))
    && (r.answer.Value? && r.answer.data.Undefined? ==> s.data == Some(Undefined))
  }

  lemma SettledIsShown(steps: seq<Step>)
    requires PlainData(steps)
    ensures var s := Run(steps);
      Newest(s).Some? && s.chains[Newest(s).value].done ==> Agrees(s, s.chains[Newest(s).value])
  {
    hide Run, WellFormed, Trip, DataSignature;
    RunInv(steps);
    var s := Run(steps);
    if Newest(s).Some? && s.chains[Newest(s).value].done {
      var r := s.chains[Newest(s).value];
      if r.answer.Value? {
        if s.data.Some? { SameSignature(s.data.value, r.answer.data); } else { SignatureNotEmpty(r.answer.data); }
      }
    }
  }

  lemma SignatureNotEmpty(d: Json)
    requires WellFormed(d)
    ensures DataSignature(d) != Some([])
  {
    hide Print;
    UndefinedPrints(d, Stringify);
  }

  /** Equal signatures mean equal JSON. */
  lemma SameSignature(a: Json, b: Json)
    requires WellFormed(a) && WellFormed(b)
    ensures DataSignature(a) == DataSignature(b) ==> (a.Undefined? <==> b.Undefined?) && Trip(a) == Trip(b)
  {
    hide Print, Normal;
    UndefinedPrints(a, Stringify);
    UndefinedPrints(b, Stringify);
    PrintOfNormal(a, b, Stringify);
  }

  /** While mounted, a page that is loading has its newest request still to settle. */
  lemma LoadingEnds(steps: seq<Step>)
    requires PlainData(steps)
    ensures Run(steps).mounted ==> Newest(Run(steps)).Some?
    ensures Run(steps).mounted && Run(steps).loading ==> !Run(steps).chains[Newest(Run(steps)).value].done
  {
    hide Run, WellFormed, DataSignature, SignatureMatches;
    RunInv(steps);
  }

  /** Data only moves forward: of two writes, the later comes from a later request. */
  lemma {:induction false} WritesMoveForward(steps: seq<Step>, j: nat, k: nat)
    requires PlainData(steps) && j < k < |steps| && Writes(steps, j) && Writes(steps, k)
    ensures steps[j].i < steps[k].i
  {
    hide Run, WellFormed, DataSignature, Next, Inv;
    var s, t := Run(steps[..j]), Run(steps[..k]);
    RunInv(steps[..j]);
    RunInv(steps[..k]);
    WriterIsNewest(s, steps[j]);
    WriterIsNewest(t, steps[k]);
    ChainsGrow(steps, j, k, steps[j].i);
  }

  /** Step k puts new data on the page. */
  predicate Writes(steps: seq<Step>, k: nat)
    requires k < |steps|
  {
    Next(Run(steps[..k]), steps[k]).data != Run(steps[..k]).data
  }

  lemma WriterIsNewest(s: State, step: Step)
    requires Inv(s) && Next(s, step).data != s.data
    ensures step.Then? && step.i == |s.chains| - 1 && s.chains[step.i].answer.Waiting?
    ensures step.i < |Next(s, step).chains| && !Next(s, step).chains[step.i].answer.Waiting?
  {
    hide DataSignature, WellFormed;
  }

  /** Requests are never removed, and an answer never taken back. */
  lemma {:induction false} ChainsGrow(steps: seq<Step>, j: nat, k: nat, i: nat)
    requires j < k < |steps| && i < |Next(Run(steps[..j]), steps[j]).chains|
    requires !Next(Run(steps[..j]), steps[j]).chains[i].answer.Waiting?
    ensures i < |Run(steps[..k]).chains| && !Run(steps[..k]).chains[i].answer.Waiting?
    decreases k
  {
    hide Next;
    assert steps[..k][..k - 1] == steps[..k - 1] && steps[..k][k - 1] == steps[k - 1];
    if k - 1 > j {
      ChainsGrow(steps, j, k - 1, i);
      AnswerStays(Run(steps[..k - 1]), steps[k - 1], i);
    }
  }

  lemma AnswerStays(s: State, step: Step, i: nat)
    requires i < |s.chains| && !s.chains[i].answer.Waiting?
    ensures i < |Next(s, step).chains| && !Next(s, step).chains[i].answer.Waiting?
  {
    hide DataSignature;
  }
}
