/** The shared OAuth token and its single-flight refresh (adt/tokensource.go).

    Each critical section of the program is one atomic step on the shared memory. The class holds
    that memory and its methods are the critical sections; the step system lets any number of
    requests, from any number of sessions sharing the source, interleave those steps. The refresh
    callback is the token request of section 6 of RFC 6749: two overlapping ones would present
    the same refresh token twice. */
module TokenSource {
  import opened Wrappers

  type Token = string

  /** call.err: nil, "token refresh failed: ...", or errRefreshAborted. */
  datatype Outcome = Success | Failed(reason: string) | Aborted

  /** What one run of the refresh callback did. */
  datatype Callback = Returned(token: Token) | Error(reason: string) | Panicked

  function OutcomeOf(cb: Callback): Outcome {
    match cb
    case Returned(_) => Success
    case Error(reason) => Failed(reason)
    case Panicked => Aborted
  }

  /** refreshCall: done says its channel is closed. */
  datatype Call = Call(done: bool, err: Outcome)

  // ---------------------------------------------------------------------------
  // The shared memory and its critical sections
  // ---------------------------------------------------------------------------

  datatype Shared = Shared(token: Token, inflight: Option<nat>, calls: seq<Call>)

  datatype Verdict = AlreadyRefreshed | Join(call: nat) | Start(call: nat)

  /** The section under s.mu at the beginning of refreshAfter401. */
  function Decide(sh: Shared, sent: Token): Verdict {
    if sh.token != sent then AlreadyRefreshed
    else if sh.inflight.Some? then Join(sh.inflight.value)
    else Start(|sh.calls|)
  }

  function AfterDecide(sh: Shared, sent: Token): Shared {
    if Decide(sh, sent).Start?
    then sh.(inflight := Some(|sh.calls|), calls := sh.calls + [Call(false, Aborted)])
    else sh
  }

  /** The owner records what the callback returned; a panic leaves errRefreshAborted. */
  function AfterReturn(sh: Shared, call: nat, cb: Callback): Shared
    requires call < |sh.calls|
  {
    if cb.Panicked? then sh
    else sh.(calls := sh.calls[call := sh.calls[call].(err := OutcomeOf(cb))])
  }

  /** The section under s.mu in the deferred function. */
  function AfterPublish(sh: Shared, call: nat, newToken: Token): Shared
    requires call < |sh.calls|
  {
    sh.(token := if sh.calls[call].err == Success then newToken else sh.token, inflight := None)
  }

  function AfterClose(sh: Shared, call: nat): Shared
    requires call < |sh.calls|
  {
    sh.(calls := sh.calls[call := sh.calls[call].(done := true)])
  }

  /** tokenSource with a refresh callback. Every method is one critical section. */
  class Source {
    var token: Token
    var inflight: Option<nat>
    var calls: seq<Call>

    function View(): Shared
      reads this
    {
      Shared(token, inflight, calls)
    }

    constructor (token: Token)
      ensures View() == Shared(token, None, [])
    {
      this.token, inflight, calls := token, None, [];
    }

    method Enter(sent: Token) returns (verdict: Verdict)
      modifies this
      ensures verdict == Decide(old(View()), sent)
      ensures View() == AfterDecide(old(View()), sent)
    {
      if token != sent {
        return AlreadyRefreshed;
      }
      if inflight.Some? {
        return Join(inflight.value);
      }
      verdict := Start(|calls|);
      inflight := Some(|calls|);
      calls := calls + [Call(false, Aborted)];
    }

    method RecordReturn(call: nat, cb: Callback)
      requires call < |calls|
      modifies this
      ensures View() == AfterReturn(old(View()), call, cb)
    {
      match cb
      case Error(reason) => calls := calls[call := calls[call].(err := Failed(reason))];
      case Returned(_) => calls := calls[call := calls[call].(err := Success)];
      case Panicked =>
    }

    method Publish(call: nat, newToken: Token)
      requires call < |calls|
      modifies this
      ensures View() == AfterPublish(old(View()), call, newToken)
    {
      if calls[call].err == Success {
        token := newToken;
      }
      inflight := None;
    }

    method Close(call: nat)
      requires call < |calls|
      modifies this
      ensures View() == AfterClose(old(View()), call)
    {
      calls := calls[call := calls[call].(done := true)];
    }
  }

  // ---------------------------------------------------------------------------
  // Any number of requests interleaving those sections
  // ---------------------------------------------------------------------------

  /** What refreshAfter401 returns to a request. */
  datatype Answer = Nil | CallError(err: Outcome) | Cancelled

  function AnswerOf(err: Outcome): Answer { if err == Success then Nil else CallError(err) }

  /** Where a request is in refreshAfter401. */
  datatype Pc =
    | Outside
    | Entering(sent: Token)
    | Waiting(call: nat)
    | InCallback(sent: Token, call: nat)
    | Finishing(sent: Token, call: nat, cb: Callback)
    | Closing(call: nat, cb: Callback)
    | Answered(answer: Answer)
    | Crashed

  predicate Owns(pc: Pc) { pc.InCallback? || pc.Finishing? || pc.Closing? }

  function OwnedCall(pc: Pc): nat
    requires Owns(pc)
  {
    match pc
    case InCallback(_, c) => c
    case Finishing(_, c, _) => c
    case Closing(c, _) => c
  }

  /** The memory, the requests, and the history: every token ever current, the argument of every
      successful callback in order, who started each call, and what its callback did. */
  datatype State = State(sh: Shared, pcs: map<nat, Pc>,
                         stored: seq<Token>, refreshed: seq<Token>,
                         owners: seq<nat>, results: seq<Option<Callback>>)

  datatype Step =
    | Enter(p: nat, sent: Token)
    | Check(p: nat)
    | Return(p: nat, cb: Callback)
    | Publish(p: nat)
    | Close(p: nat)
    | Release(p: nat)
    | Cancel(p: nat)

  predicate Enabled(s: State, step: Step) {
    && step.p in s.pcs
    && match step
       case Enter(p, _) => s.pcs[p].Outside? || s.pcs[p].Answered?
       case Check(p) => s.pcs[p].Entering?
       case Return(p, _) => s.pcs[p].InCallback? && s.pcs[p].call < |s.sh.calls| == |s.results|
       case Publish(p) => s.pcs[p].Finishing? && s.pcs[p].call < |s.sh.calls|
       case Close(p) => s.pcs[p].Closing? && s.pcs[p].call < |s.sh.calls|
       case Release(p) => s.pcs[p].Waiting? && s.pcs[p].call < |s.sh.calls| && s.sh.calls[s.pcs[p].call].done
       case Cancel(p) => s.pcs[p].Waiting?
  }

  function Apply(s: State, step: Step): State
    requires Enabled(s, step)
  {
    match step
    case Enter(p, sent) => s.(pcs := s.pcs[p := Entering(sent)])
    case Check(p) =>
      var sent := s.pcs[p].sent;
      var s' := s.(sh := AfterDecide(s.sh, sent));
      (match Decide(s.sh, sent)
       case AlreadyRefreshed => s'.(pcs := s.pcs[p := Answered(Nil)])
       case Join(c) => s'.(pcs := s.pcs[p := Waiting(c)])
       case Start(c) => s'.(pcs := s.pcs[p := InCallback(sent, c)],
                            owners := s.owners + [p], results := s.results + [None]))
    case Return(p, cb) =>
      var InCallback(sent, c) := s.pcs[p];
      s.(sh := AfterReturn(s.sh, c, cb), pcs := s.pcs[p := Finishing(sent, c, cb)],
         refreshed := s.refreshed + (if cb.Returned? then [sent] else []),
         results := s.results[c := Some(cb)])
    case Publish(p) =>
      var Finishing(_, c, cb) := s.pcs[p];
      var newToken := if cb.Returned? then cb.token else "";
      var sh' := AfterPublish(s.sh, c, newToken);
      s.(sh := sh', pcs := s.pcs[p := Closing(c, cb)],
         stored := s.stored + (if s.sh.calls[c].err == Success then [sh'.token] else []))
    case Close(p) =>
      var Closing(c, cb) := s.pcs[p];
      s.(sh := AfterClose(s.sh, c),
         pcs := s.pcs[p := if cb.Panicked? then Crashed else Answered(AnswerOf(OutcomeOf(cb)))])
    case Release(p) => s.(pcs := s.pcs[p := Answered(AnswerOf(s.sh.calls[s.pcs[p].call].err))])
    case Cancel(p) => s.(pcs := s.pcs[p := Answered(Cancelled)])
  }

  predicate Init(s: State) {
    && s.sh.inflight == None && s.sh.calls == []
    && s.stored == [s.sh.token] && s.refreshed == [] && s.owners == [] && s.results == []
    && forall p | p in s.pcs :: s.pcs[p] == Outside
  }

  /** The callback returned a token never seen before, as a rotating provider does. */
  predicate Fresh(s: State, step: Step) {
    step.Return? && step.cb.Returned? ==> step.cb.token !in s.stored
  }

  ghost predicate Next(s: State, s': State) {
    exists step :: Enabled(s, step) && s' == Apply(s, step)
  }

  ghost predicate FreshNext(s: State, s': State) {
    exists step :: Enabled(s, step) && Fresh(s, step) && s' == Apply(s, step)
  }

  ghost predicate Path(path: seq<State>) {
    path != [] && forall i | 0 <= i < |path| - 1 :: Next(path[i], path[i + 1])
  }

  ghost predicate Run(run: seq<State>) { Path(run) && Init(run[0]) }

  // ---------------------------------------------------------------------------
  // The invariant
  // ---------------------------------------------------------------------------

  /** The refresh that holds inflight, if any: the request still in the callback or before Publish. */
  predicate Refreshing(pc: Pc) { pc.InCallback? || pc.Finishing? }

  ghost predicate CallsOwned(s: State) {
    && |s.owners| == |s.results| == |s.sh.calls|
    && (forall c | 0 <= c < |s.owners| :: s.owners[c] in s.pcs)
    && (forall c | 0 <= c < |s.sh.calls| && !s.sh.calls[c].done ::
          Owns(s.pcs[s.owners[c]]) && OwnedCall(s.pcs[s.owners[c]]) == c)
    && (forall p | p in s.pcs && Owns(s.pcs[p]) ::
          var c := OwnedCall(s.pcs[p]); c < |s.owners| && s.owners[c] == p && !s.sh.calls[c].done)
    && (forall p | p in s.pcs && s.pcs[p].Waiting? :: s.pcs[p].call < |s.sh.calls|)
  }

  ghost predicate SingleFlight(s: State) {
    && (forall p | p in s.pcs && Refreshing(s.pcs[p]) ::
          s.sh.inflight == Some(s.pcs[p].call) && s.pcs[p].sent == s.sh.token)
    && (s.sh.inflight.Some? ==>
          var c := s.sh.inflight.value;
          c < |s.owners| && s.owners[c] in s.pcs && Refreshing(s.pcs[s.owners[c]]) && s.pcs[s.owners[c]].call == c)
  }

  ghost predicate OutcomesKept(s: State) {
    && |s.results| == |s.sh.calls|
    && (forall c | 0 <= c < |s.sh.calls| ::
          s.sh.calls[c].err == if s.results[c].Some? then OutcomeOf(s.results[c].value) else Aborted)
    && (forall p | p in s.pcs && Owns(s.pcs[p]) ::
          && OwnedCall(s.pcs[p]) < |s.results|
          && s.results[OwnedCall(s.pcs[p])] == if s.pcs[p].InCallback? then None else Some(s.pcs[p].cb))
    && (forall c | 0 <= c < |s.sh.calls| && s.sh.calls[c].done :: s.results[c].Some?)
    && (forall c | 0 <= c < |s.sh.calls| && s.results[c].Some? && s.results[c].value.Returned? ::
          s.results[c].value.token in s.stored
          || s.sh.inflight == Some(c))
  }

  /** Every stored token but the current one was refreshed exactly once, in order; the current
      one is, between the callback's return and Publish. */
  ghost predicate RefreshedInOrder(s: State) {
    && s.stored != [] && s.stored[|s.stored| - 1] == s.sh.token
    && s.refreshed == if Delivered(s) then s.stored else s.stored[..|s.stored| - 1]
  }

  predicate Delivered(s: State) {
    s.sh.inflight.Some? &&
    var c := s.sh.inflight.value;
    c < |s.results| && s.results[c].Some? && s.results[c].value.Returned?
  }

  ghost predicate Inv(s: State) {
    CallsOwned(s) && SingleFlight(s) && OutcomesKept(s) && RefreshedInOrder(s)
  }

  lemma InitInv(s: State)
    requires Init(s)
    ensures Inv(s)
  {}

  /** A step of a request that neither owned a call nor owns one afterwards. */
  predicate Quiet(s: State, step: Step)
    requires Enabled(s, step)
  {
    step.Enter? || step.Release? || step.Cancel? || (step.Check? && !Decide(s.sh, s.pcs[step.p].sent).Start?)
  }

  lemma QuietKeepsCallsOwned(s: State, step: Step)
    requires CallsOwned(s) && SingleFlight(s) && Enabled(s, step) && Quiet(s, step)
    ensures CallsOwned(Apply(s, step))
  {
    var s' := Apply(s, step);
    assert s'.sh == s.sh && s'.owners == s.owners && s'.results == s.results;
    assert forall q | q in s.pcs && q != step.p :: s'.pcs[q] == s.pcs[q];
    assert !Owns(s.pcs[step.p]) && !Owns(s'.pcs[step.p]);
  }

  lemma StepKeepsCallsOwned(s: State, step: Step)
    requires CallsOwned(s) && SingleFlight(s) && Enabled(s, step)
    ensures CallsOwned(Apply(s, step))
  {
    if Quiet(s, step) {
      QuietKeepsCallsOwned(s, step);
    } else if step.Check? {
      StartKeepsCallsOwned(s, step.p);
    } else {
      OwnerKeepsCallsOwned(s, step);
    }
  }

  lemma OwnerKeepsCallsOwned(s: State, step: Step)
    requires CallsOwned(s) && Enabled(s, step) && (step.Return? || step.Publish? || step.Close?)
    ensures CallsOwned(Apply(s, step))
  {
    var s', k := Apply(s, step), s.pcs[step.p].call;
    assert s'.owners == s.owners && |s'.sh.calls| == |s.sh.calls|;
    assert forall c | 0 <= c < |s.sh.calls| && (c != k || !step.Close?) :: s'.sh.calls[c].done == s.sh.calls[c].done;
    assert forall q | q in s.pcs && q != step.p :: s'.pcs[q] == s.pcs[q];
  }

  lemma StartKeepsCallsOwned(s: State, p: nat)
    requires CallsOwned(s) && Enabled(s, Check(p)) && Decide(s.sh, s.pcs[p].sent).Start?
    ensures CallsOwned(Apply(s, Check(p)))
  {
    var s' := Apply(s, Check(p));
    var n := |s.sh.calls|;
    assert forall c | 0 <= c < n :: s'.sh.calls[c] == s.sh.calls[c] && s'.owners[c] == s.owners[c];
    assert s'.sh.calls[n] == Call(false, Aborted) && s'.owners[n] == p;
    forall q | q in s'.pcs && Owns(s'.pcs[q])
      ensures var c := OwnedCall(s'.pcs[q]); c < |s'.owners| && s'.owners[c] == q && !s'.sh.calls[c].done
    {
      assert q != p ==> s'.pcs[q] == s.pcs[q];
    }
  }

  lemma StepKeepsSingleFlight(s: State, step: Step)
    requires CallsOwned(s) && SingleFlight(s) && OutcomesKept(s) && Enabled(s, step)
    ensures SingleFlight(Apply(s, step))
  {
    if Quiet(s, step) {
      QuietKeepsSingleFlight(s, step);
    } else {
      match step
      case Check(p) => StartKeepsSingleFlight(s, p);
      case Return(p, cb) => ReturnKeepsSingleFlight(s, p, cb);
      case Publish(p) => PublishEndsFlight(s, p);
      case Close(p) => CloseKeepsSingleFlight(s, p);
    }
  }

  lemma QuietKeepsSingleFlight(s: State, step: Step)
    requires CallsOwned(s) && SingleFlight(s) && Enabled(s, step) && Quiet(s, step)
    ensures SingleFlight(Apply(s, step))
  {
    var s' := Apply(s, step);
    assert forall q | q in s.pcs && q != step.p :: s'.pcs[q] == s.pcs[q];
    assert s'.sh == s.sh && !Refreshing(s.pcs[step.p]) && !Refreshing(s'.pcs[step.p]);
  }

  lemma StartKeepsSingleFlight(s: State, p: nat)
    requires CallsOwned(s) && SingleFlight(s) && Enabled(s, Check(p)) && Decide(s.sh, s.pcs[p].sent).Start?
    ensures SingleFlight(Apply(s, Check(p)))
  {
    var s' := Apply(s, Check(p));
    assert forall q | q in s.pcs && q != p :: s'.pcs[q] == s.pcs[q] && !Refreshing(s.pcs[q]);
    assert s'.owners[|s.owners|] == p;
  }

  lemma ReturnKeepsSingleFlight(s: State, p: nat, cb: Callback)
    requires CallsOwned(s) && SingleFlight(s) && Enabled(s, Return(p, cb))
    ensures SingleFlight(Apply(s, Return(p, cb)))
  {
    var s' := Apply(s, Return(p, cb));
    assert forall q | q in s.pcs && q != p :: s'.pcs[q] == s.pcs[q];
    assert s'.pcs[p].sent == s.pcs[p].sent && s'.pcs[p].call == s.pcs[p].call;
  }

  lemma PublishEndsFlight(s: State, p: nat)
    requires CallsOwned(s) && SingleFlight(s) && Enabled(s, Publish(p))
    ensures SingleFlight(Apply(s, Publish(p)))
  {
    var s' := Apply(s, Publish(p));
    assert forall q | q in s.pcs && q != p :: s'.pcs[q] == s.pcs[q];
    assert forall q | q in s.pcs && Refreshing(s.pcs[q]) :: s.owners[s.pcs[q].call] == q && q == p;
  }

  lemma CloseKeepsSingleFlight(s: State, p: nat)
    requires CallsOwned(s) && SingleFlight(s) && Enabled(s, Close(p))
    ensures SingleFlight(Apply(s, Close(p)))
  {
    var s' := Apply(s, Close(p));
    assert forall q | q in s.pcs && q != p :: s'.pcs[q] == s.pcs[q];
  }

  lemma StepKeepsOutcomes(s: State, step: Step)
    requires CallsOwned(s) && SingleFlight(s) && OutcomesKept(s) && Enabled(s, step)
    ensures OutcomesKept(Apply(s, step))
  {
    match step
    case Check(p) => CheckKeepsOutcomes(s, p);
    case Return(p, cb) => ReturnKeepsOutcomes(s, p, cb);
    case Publish(p) => PublishKeepsOutcomes(s, p);
    case Close(p) => CloseKeepsOutcomes(s, p);
    case _ =>
  }

  lemma CheckKeepsOutcomes(s: State, p: nat)
    requires CallsOwned(s) && SingleFlight(s) && OutcomesKept(s) && Enabled(s, Check(p))
    ensures OutcomesKept(Apply(s, Check(p)))
  {
    if Decide(s.sh, s.pcs[p].sent).Start? {
      StartKeepsOutcomes(s, p);
    }
  }

  lemma StartKeepsOutcomes(s: State, p: nat)
    requires CallsOwned(s) && SingleFlight(s) && OutcomesKept(s)
    requires Enabled(s, Check(p)) && Decide(s.sh, s.pcs[p].sent).Start?
    ensures OutcomesKept(Apply(s, Check(p)))
  {
    var s', n := Apply(s, Check(p)), |s.sh.calls|;
    forall c | 0 <= c < n
      ensures s'.sh.calls[c] == s.sh.calls[c] && s'.results[c] == s.results[c]
    {}
    assert s'.sh.calls[n] == Call(false, Aborted) && s'.results[n] == None;
    forall q | q in s'.pcs && Owns(s'.pcs[q])
      ensures var c := OwnedCall(s'.pcs[q]);
              c < |s'.results| && s'.results[c] == if s'.pcs[q].InCallback? then None else Some(s'.pcs[q].cb)
    {
      assert q != p ==> s'.pcs[q] == s.pcs[q];
    }
  }

  lemma ReturnKeepsOutcomes(s: State, p: nat, cb: Callback)
    requires CallsOwned(s) && SingleFlight(s) && OutcomesKept(s) && Enabled(s, Return(p, cb))
    ensures OutcomesKept(Apply(s, Return(p, cb)))
  {
    var s', k := Apply(s, Return(p, cb)), s.pcs[p].call;
    assert s.owners[k] == p && s.sh.inflight == Some(k);
    assert s'.results[k] == Some(cb) && s'.sh.calls[k].err == OutcomeOf(cb);
    forall c | 0 <= c < |s.sh.calls| && c != k
      ensures s'.sh.calls[c] == s.sh.calls[c] && s'.results[c] == s.results[c]
    {}
    forall q | q in s'.pcs && Owns(s'.pcs[q]) && q != p
      ensures s'.pcs[q] == s.pcs[q] && OwnedCall(s.pcs[q]) != k
    {
      assert s.owners[OwnedCall(s.pcs[q])] == q;
    }
  }

  lemma PublishKeepsOutcomes(s: State, p: nat)
    requires CallsOwned(s) && SingleFlight(s) && OutcomesKept(s) && Enabled(s, Publish(p))
    ensures OutcomesKept(Apply(s, Publish(p)))
  {
    var s', cb := Apply(s, Publish(p)), s.pcs[p].cb;
    assert s.results[s.pcs[p].call] == Some(cb);
    assert forall t | t in s.stored :: t in s'.stored;
    assert cb.Returned? ==> s'.stored == s.stored + [cb.token];
    assert forall q | q in s.pcs && q != p :: s'.pcs[q] == s.pcs[q];
  }

  lemma CloseKeepsOutcomes(s: State, p: nat)
    requires CallsOwned(s) && SingleFlight(s) && OutcomesKept(s) && Enabled(s, Close(p))
    ensures OutcomesKept(Apply(s, Close(p)))
  {
    var s', k := Apply(s, Close(p)), s.pcs[p].call;
    assert forall c | 0 <= c < |s.sh.calls| :: s'.sh.calls[c].err == s.sh.calls[c].err;
    assert forall c | 0 <= c < |s.sh.calls| && c != k :: s'.sh.calls[c] == s.sh.calls[c];
    assert s.results[k] == Some(s.pcs[p].cb);
  }

  lemma StepKeepsOrder(s: State, step: Step)
    requires Inv(s) && Enabled(s, step)
    ensures RefreshedInOrder(Apply(s, step))
  {
    var s' := Apply(s, step);
    if step.Return? {
      var c := s.pcs[step.p].call;
      assert s.sh.inflight == Some(c) && s.results[c] == None;
      assert s.stored == s.stored[..|s.stored| - 1] + [s.sh.token];
    } else if step.Publish? {
      assert s'.stored[..|s.stored|] == s.stored;
    } else if step.Check? {
      assert forall c | 0 <= c < |s.results| :: s'.results[c] == s.results[c];
    }
  }

  lemma StepKeepsInv(s: State, step: Step)
    requires Inv(s) && Enabled(s, step)
    ensures Inv(Apply(s, step))
  {
    StepKeepsCallsOwned(s, step);
    StepKeepsSingleFlight(s, step);
    StepKeepsOutcomes(s, step);
    StepKeepsOrder(s, step);
  }

  lemma {:induction false} RunKeepsInv(run: seq<State>, i: nat)
    requires Run(run) && i < |run|
    ensures Inv(run[i])
  {
    if i == 0 {
      InitInv(run[0]);
    } else {
      RunKeepsInv(run, i - 1);
      assert Next(run[i - 1], run[i - 1 + 1]);
      var step :| Enabled(run[i - 1], step) && run[i] == Apply(run[i - 1], step);
      StepKeepsInv(run[i - 1], step);
    }
  }

  // ---------------------------------------------------------------------------
  // What every interleaving guarantees
  // ---------------------------------------------------------------------------

  /** At most one refresh callback runs at a time, and the token it was given is the current one
      for its whole run. */
  lemma OneCallbackAtATime(run: seq<State>, i: nat)
    requires Run(run) && i < |run|
    ensures var s := run[i];
            && (forall p, q | p in s.pcs && q in s.pcs && s.pcs[p].InCallback? && s.pcs[q].InCallback? :: p == q)
            && (forall p | p in s.pcs && s.pcs[p].InCallback? :: s.pcs[p].sent == s.sh.token)
  {
    RunKeepsInv(run, i);
    var s := run[i];
    forall p, q | p in s.pcs && q in s.pcs && s.pcs[p].InCallback? && s.pcs[q].InCallback?
      ensures p == q
    {
      assert s.owners[s.pcs[p].call] == p && s.owners[s.pcs[q].call] == q;
    }
  }

  predicate NoDuplicates<T(==)>(xs: seq<T>) {
    forall i, j | 0 <= i < j < |xs| :: xs[i] != xs[j]
  }

  /** Whatever the callback returns: the successful refreshes are, in order, one for each token
      that was current, up to the token current now. */
  lemma RefreshesFollowTokens(run: seq<State>, i: nat)
    requires Run(run) && i < |run|
    ensures var s := run[i];
            s.refreshed <= s.stored && |s.stored| - 1 <= |s.refreshed|
  {
    RunKeepsInv(run, i);
  }

  /** If callbacks only return tokens never seen before, no token is refreshed successfully twice. */
  lemma NoTokenRefreshedTwice(run: seq<State>, i: nat)
    requires Run(run) && i < |run|
    requires forall k | 0 <= k < |run| - 1 :: FreshNext(run[k], run[k + 1])
    ensures NoDuplicates(run[i].refreshed)
  {
    TokensStayDistinct(run, i);
    RefreshesFollowTokens(run, i);
  }

  /** The token a finished callback has not published yet is still new. */
  ghost predicate Distinct(s: State) {
    && NoDuplicates(s.stored)
    && (forall p | p in s.pcs && s.pcs[p].Finishing? && s.pcs[p].cb.Returned? :: s.pcs[p].cb.token !in s.stored)
  }

  lemma {:induction false} TokensStayDistinct(run: seq<State>, i: nat)
    requires Run(run) && i < |run|
    requires forall k | 0 <= k < |run| - 1 :: FreshNext(run[k], run[k + 1])
    ensures Distinct(run[i])
  {
    if i > 0 {
      TokensStayDistinct(run, i - 1);
      RunKeepsInv(run, i - 1);
      var s := run[i - 1];
      assert FreshNext(run[i - 1], run[i - 1 + 1]);
      var step :| Enabled(s, step) && Fresh(s, step) && run[i] == Apply(s, step);
      StepKeepsDistinct(s, step);
    }
  }

  lemma StepKeepsDistinct(s: State, step: Step)
    requires Inv(s) && Distinct(s) && Enabled(s, step) && Fresh(s, step)
    ensures Distinct(Apply(s, step))
  {
    var s' := Apply(s, step);
    if step.Publish? {
      var c := s.pcs[step.p].call;
      assert s.results[c] == Some(s.pcs[step.p].cb);
      assert forall q | q in s.pcs && s.pcs[q].Finishing? :: s.owners[s.pcs[q].call] == q && q == step.p;
    }
  }

  /** No waiter is orphaned: the call a request waits for is done, or some other request is still
      in its callback or in finish. */
  lemma NoWaiterOrphaned(run: seq<State>, i: nat, p: nat)
    requires Run(run) && i < |run| && p in run[i].pcs && run[i].pcs[p].Waiting?
    ensures var s, c := run[i], run[i].pcs[p].call;
            c < |s.sh.calls|
            && (s.sh.calls[c].done || exists q :: q in s.pcs && q != p && Owns(s.pcs[q]) && OwnedCall(s.pcs[q]) == c)
  {
    RunKeepsInv(run, i);
    var s, c := run[i], run[i].pcs[p].call;
    if !s.sh.calls[c].done {
      assert s.owners[c] in s.pcs;
    }
  }

  /** A released waiter gets what the owner's callback did, errRefreshAborted after a panic; when
      that is success, the new token was stored before the release. */
  lemma ReleasedWaiterGetsOwnersOutcome(run: seq<State>, i: nat, p: nat)
    requires Run(run) && i < |run| && Enabled(run[i], Release(p))
    ensures var s, c := run[i], run[i].pcs[p].call;
            && c < |s.results| && s.results[c].Some?
            && Apply(s, Release(p)).pcs[p] == Answered(AnswerOf(OutcomeOf(s.results[c].value)))
            && (s.results[c].value.Returned? ==> s.results[c].value.token in s.stored)
  {
    RunKeepsInv(run, i);
    var s, c := run[i], run[i].pcs[p].call;
  }

  /** What the call a request waits for gave or, if its callback still runs, will give with cb. */
  function Awaited(s: State, c: nat, cb: Callback): Callback
    requires c < |s.results|
  {
    if s.results[c].Some? then s.results[c].value else cb
  }

  /** From every reachable state a waiter can be released by the owner's steps alone, whatever the
      callback does: at most three of them, and then the waiter's own. */
  lemma WaiterCanBeReleased(run: seq<State>, i: nat, p: nat, cb: Callback) returns (more: seq<State>)
    requires Run(run) && i < |run| && p in run[i].pcs && run[i].pcs[p].Waiting?
    ensures Path(more) && 2 <= |more| <= 5 && more[0] == run[i]
    ensures var c, end := run[i].pcs[p].call, more[|more| - 1];
            c < |run[i].results| && p in end.pcs
            && end.pcs[p] == Answered(AnswerOf(OutcomeOf(Awaited(run[i], c, cb))))
  {
    RunKeepsInv(run, i);
    more := ReleaseFrom(run[i], p, cb);
  }

  /** How many steps the owner of call c still has to take. */
  function StepsLeft(s: State, c: nat): nat
    requires c < |s.sh.calls| == |s.owners| && s.owners[c] in s.pcs
  {
    if s.sh.calls[c].done then 0
    else match s.pcs[s.owners[c]] case InCallback(_, _) => 3 case Finishing(_, _, _) => 2 case _ => 1
  }

  lemma PathCons(s: State, rest: seq<State>)
    requires Path(rest) && Next(s, rest[0])
    ensures Path([s] + rest)
  {
    var path := [s] + rest;
    forall k | 0 <= k < |path| - 1 ensures Next(path[k], path[k + 1]) {
      assert k > 0 ==> Next(rest[k - 1], rest[k - 1 + 1]);
    }
  }

  lemma {:induction false} ReleaseFrom(s: State, p: nat, cb: Callback) returns (more: seq<State>)
    requires Inv(s) && p in s.pcs && s.pcs[p].Waiting? && s.pcs[p].call < |s.sh.calls|
    ensures Path(more) && |more| == StepsLeft(s, s.pcs[p].call) + 2 && more[0] == s
    ensures var end := more[|more| - 1];
            p in end.pcs && end.pcs[p] == Answered(AnswerOf(OutcomeOf(Awaited(s, s.pcs[p].call, cb))))
    decreases StepsLeft(s, s.pcs[p].call)
  {
    var c := s.pcs[p].call;
    if s.sh.calls[c].done {
      assert Enabled(s, Release(p)) && Next(s, Apply(s, Release(p)));
      more := [s, Apply(s, Release(p))];
    } else {
      var step := OwnerStep(s, p, cb);
      var s' := Apply(s, step);
      StepKeepsInv(s, step);
      assert Next(s, s');
      var rest := ReleaseFrom(s', p, cb);
      more := [s] + rest;
      PathCons(s, rest);
    }
  }

  /** The owner of a call that is not done can always take its next step. */
  lemma OwnerStep(s: State, p: nat, cb: Callback) returns (step: Step)
    requires Inv(s) && p in s.pcs && s.pcs[p].Waiting?
    requires s.pcs[p].call < |s.sh.calls| && !s.sh.calls[s.pcs[p].call].done
    ensures Enabled(s, step)
    ensures var c, s' := s.pcs[p].call, Apply(s, step);
            && s'.pcs[p] == Waiting(c) && s'.owners == s.owners
            && |s'.sh.calls| == |s.sh.calls| == |s.results| == |s'.results|
            && StepsLeft(s', c) == StepsLeft(s, c) - 1
            && Awaited(s', c, cb) == Awaited(s, c, cb)
  {
    var c := s.pcs[p].call;
    var q := s.owners[c];
    assert Owns(s.pcs[q]) && OwnedCall(s.pcs[q]) == c && q != p;
    match s.pcs[q]
    case InCallback(_, _) => step := Return(q, cb);
    case Finishing(_, _, _) => step := Publish(q);
    case Closing(_, _) => step := Close(q);
  }

  /** A failed refresh does not stick: whenever no request is in the callback or before Publish,
      the next 401 with the current token starts a new refresh. */
  lemma NextAttemptStarts(run: seq<State>, i: nat, p: nat)
    requires Run(run) && i < |run| && Enabled(run[i], Check(p))
    requires run[i].pcs[p].sent == run[i].sh.token
    ensures var s := run[i];
            (forall q | q in s.pcs :: !Refreshing(s.pcs[q])) <==> Apply(s, Check(p)).pcs[p].InCallback?
  {
    RunKeepsInv(run, i);
  }

  // ---------------------------------------------------------------------------
  // What refreshAfter401 returns
  // ---------------------------------------------------------------------------

  /** What the request is told of the callback of the call it started. */
  predicate EndsOwner(pc: Pc, cb: Callback) {
    match cb
    case Returned(_) => pc == Answered(Nil)
    case Error(reason) => pc == Answered(CallError(Failed(reason)))
    case Panicked => pc == Crashed
  }

  /** What a request is told of the callback of the call it joined. */
  predicate EndsWaiter(pc: Pc, cb: Callback) {
    match cb
    case Returned(_) => pc == Answered(Nil)
    case Error(reason) => pc == Answered(CallError(Failed(reason)))
    case Panicked => pc == Answered(CallError(Aborted))
  }

  /** The turns a request can take, told from the memory and the history before and after. */
  ghost predicate TurnIsRight(s: State, s': State, p: nat)
    requires p in s.pcs && p in s'.pcs
  {
    var pc, pc' := s.pcs[p], s'.pcs[p];
    match pc
    case Outside => pc'.Entering?
    case Answered(_) => pc'.Entering?
    case Crashed => false
    case Entering(sent) =>
      if sent != s.sh.token then pc' == Answered(Nil) && s' == s.(pcs := s.pcs[p := pc'])
      else if s.sh.inflight.Some? then pc' == Waiting(s.sh.inflight.value) && s' == s.(pcs := s.pcs[p := pc'])
      else pc' == InCallback(sent, |s.results|) && s'.owners == s.owners + [p] && s'.results == s.results + [None]
    case InCallback(sent, c) =>
      pc'.Finishing? && pc'.sent == sent && pc'.call == c && c < |s'.results| && s'.results[c] == Some(pc'.cb)
    case Finishing(_, c, cb) =>
      && pc' == Closing(c, cb) && c < |s'.results| && s'.results[c] == Some(cb) && s'.sh.inflight == None
      && s'.stored == s.stored + (if cb.Returned? then [cb.token] else [])
      && s'.sh.token == (if cb.Returned? then cb.token else s.sh.token)
    case Closing(c, _) =>
      && c < |s'.results| && s'.results[c].Some? && EndsOwner(pc', s'.results[c].value)
      && c < |s'.sh.calls| && s'.sh.calls[c].done
    case Waiting(c) =>
      && s' == s.(pcs := s.pcs[p := pc'])
      && (pc' == Answered(Cancelled)
          || (c < |s.results| && c < |s.sh.calls| && s.sh.calls[c].done && s.results[c].Some?
              && EndsWaiter(pc', s.results[c].value)))
  }

  lemma {:induction false} StepTurns(s: State, step: Step, p: nat)
    requires Inv(s) && Enabled(s, step) && p in s.pcs && Apply(s, step).pcs[p] != s.pcs[p]
    ensures step.p == p && TurnIsRight(s, Apply(s, step), p)
  {
    StepKeepsInv(s, step);
    if step.Publish? {
      assert s.results[s.pcs[p].call] == Some(s.pcs[p].cb);
    }
  }

  /** A step moves its request and no other; a cancelled waiter is told so, a released one what its call
      came to. */
  lemma {:induction false} StepMovesOne(s: State, step: Step)
    requires Inv(s) && Enabled(s, step)
    ensures var s', p := Apply(s, step), step.p;
            && s'.pcs.Keys == s.pcs.Keys && s'.pcs[p] != s.pcs[p]
            && (forall q | q in s.pcs && q != p :: s'.pcs[q] == s.pcs[q])
            && (step.Enter? ==> s'.pcs[p] == Entering(step.sent))
            && (step.Cancel? ==> s'.pcs[p] == Answered(Cancelled))
            && (step.Release? ==> var c := s.pcs[p].call;
                  c < |s.results| && s.results[c].Some? && EndsWaiter(s'.pcs[p], s.results[c].value))
  {
    StepTurns(s, step, step.p);
  }

  /** In every run, whenever a request moves on, it moves as the memory and the history say: a token
      that is not current answers nil at once and changes nothing; an owner ends with what its callback
      did; a waiter with what the owner's did, or with its cancellation. */
  lemma {:induction false} EveryTurnIsRight(run: seq<State>, i: nat, p: nat)
    requires Run(run) && i + 1 < |run| && p in run[i].pcs
    ensures p in run[i + 1].pcs
    ensures run[i + 1].pcs[p] != run[i].pcs[p] ==> TurnIsRight(run[i], run[i + 1], p)
  {
    RunKeepsInv(run, i);
    assert Next(run[i], run[i + 1]);
    var step :| Enabled(run[i], step) && run[i + 1] == Apply(run[i], step);
    if run[i + 1].pcs[p] != run[i].pcs[p] {
      StepTurns(run[i], step, p);
    }
  }

  /** The request runs call c, or waits for it. */
  predicate OnCall(pc: Pc, c: nat) { (pc.Waiting? && pc.call == c) || (Owns(pc) && OwnedCall(pc) == c) }

  /** Call c is in flight, or it is over, and has stored a token since the first n if it succeeded. */
  predicate InFlightOrStored(s: State, c: nat, n: nat) {
    && n <= |s.stored|
    && (s.sh.inflight == Some(c)
        || (c < |s.results| && s.results[c].Some? && (s.results[c].value.Returned? ==> n < |s.stored|)))
  }

  lemma {:induction false} StepKeepsFlight(s: State, step: Step, c: nat, n: nat)
    requires Inv(s) && Enabled(s, step) && InFlightOrStored(s, c, n)
    ensures InFlightOrStored(Apply(s, step), c, n)
  {
    if step.Publish? {
      assert s.results[s.pcs[step.p].call] == Some(s.pcs[step.p].cb);
    }
  }

  /** From its check at i on, the request is on one call until it ends at j. */
  ghost predicate IsCall(run: seq<State>, i: nat, j: nat, p: nat, c: nat) {
    && i < j < |run| && p in run[i].pcs && run[i].pcs[p].Entering?
    && (forall k {:trigger run[k]} | i < k < j :: p in run[k].pcs && OnCall(run[k].pcs[p], c))
    && p in run[j].pcs && (run[j].pcs[p].Answered? || run[j].pcs[p].Crashed?)
  }

  lemma {:induction false} RunKeepsFlight(run: seq<State>, k: nat, c: nat, n: nat)
    requires Run(run) && k + 1 < |run| && InFlightOrStored(run[k], c, n)
    ensures InFlightOrStored(run[k + 1], c, n)
  {
    RunKeepsInv(run, k);
    assert Next(run[k], run[k + 1]);
    var step :| Enabled(run[k], step) && run[k + 1] == Apply(run[k], step);
    StepKeepsFlight(run[k], step, c, n);
  }

  lemma {:induction false} FlightStarts(s: State, s': State, p: nat, c: nat)
    requires p in s.pcs && p in s'.pcs && s.pcs[p].Entering? && OnCall(s'.pcs[p], c) && TurnIsRight(s, s', p)
    requires s.stored == s'.stored && (s.sh.inflight == None ==> s'.sh.inflight == Some(|s.results|))
    ensures s.pcs[p].sent == s.sh.token && InFlightOrStored(s', c, |s.stored|)
  {}

  /** A check stores nothing, and a call it starts is in flight. */
  lemma {:induction false} CheckStarts(run: seq<State>, i: nat, p: nat, c: nat)
    requires Run(run) && i + 1 < |run| && p in run[i].pcs && run[i].pcs[p].Entering?
    requires p in run[i + 1].pcs && OnCall(run[i + 1].pcs[p], c)
    ensures run[i].pcs[p].sent == run[i].sh.token && InFlightOrStored(run[i + 1], c, |run[i].stored|)
  {
    RunKeepsInv(run, i);
    EveryTurnIsRight(run, i, p);
    assert Next(run[i], run[i + 1]);
    var step :| Enabled(run[i], step) && run[i + 1] == Apply(run[i], step);
    StepTurns(run[i], step, p);
    FlightStarts(run[i], run[i + 1], p, c);
  }

  lemma {:induction false} FlightAt(run: seq<State>, i: nat, k: nat, p: nat, c: nat)
    requires Run(run) && i < k < |run| && p in run[i].pcs && run[i].pcs[p].Entering?
    requires forall m {:trigger run[m]} | i < m <= k :: p in run[m].pcs && OnCall(run[m].pcs[p], c)
    ensures run[i].pcs[p].sent == run[i].sh.token && InFlightOrStored(run[k], c, |run[i].stored|)
  {
    if k == i + 1 {
      CheckStarts(run, i, p, c);
    } else {
      FlightAt(run, i, k - 1, p, c);
      RunKeepsFlight(run, k - 1, c, |run[i].stored|);
    }
  }

  /** A request that has run call c, or waited for it, ends with what the history says of it. */
  ghost predicate EndsWithCall(pc: Pc, c: nat, s: State, n: nat) {
    && c < |s.results| && s.results[c].Some?
    && var cb := s.results[c].value;
    && (EndsOwner(pc, cb) || EndsWaiter(pc, cb))
    && (pc == Answered(Nil) <==> cb.Returned?) && (cb.Returned? ==> n < |s.stored|)
  }

  lemma {:induction false} TurnEnds(s: State, s': State, p: nat, c: nat, n: nat)
    requires p in s.pcs && p in s'.pcs && OnCall(s.pcs[p], c) && (s'.pcs[p].Answered? || s'.pcs[p].Crashed?)
    requires TurnIsRight(s, s', p) && InFlightOrStored(s', c, n) && s'.sh.inflight != Some(c)
    ensures s'.pcs[p] == Answered(Cancelled) || EndsWithCall(s'.pcs[p], c, s', n)
  {}

  lemma {:induction false} NotInFlight(s: State, c: nat)
    requires Inv(s) && c < |s.sh.calls| && s.sh.calls[c].done
    ensures s.sh.inflight != Some(c)
  {}

  lemma {:induction false} RunEnds(run: seq<State>, k: nat, p: nat, c: nat, n: nat)
    requires Run(run) && k + 1 < |run| && p in run[k].pcs && p in run[k + 1].pcs && OnCall(run[k].pcs[p], c)
    requires run[k + 1].pcs[p].Answered? || run[k + 1].pcs[p].Crashed?
    requires InFlightOrStored(run[k + 1], c, n)
    ensures run[k + 1].pcs[p] == Answered(Cancelled) || EndsWithCall(run[k + 1].pcs[p], c, run[k + 1], n)
  {
    EveryTurnIsRight(run, k, p);
    RunKeepsInv(run, k + 1);
    var s' := run[k + 1];
    if s'.pcs[p] != Answered(Cancelled) {
      NotInFlight(s', c);
      TurnEnds(run[k], s', p, c, n);
    }
  }

  lemma {:induction false} CheckEnds(run: seq<State>, i: nat, p: nat)
    requires Run(run) && i + 1 < |run| && p in run[i].pcs && run[i].pcs[p].Entering?
    requires p in run[i + 1].pcs && (run[i + 1].pcs[p].Answered? || run[i + 1].pcs[p].Crashed?)
    ensures run[i].pcs[p].sent != run[i].sh.token && run[i + 1].pcs[p] == Answered(Nil)
  {
    EveryTurnIsRight(run, i, p);
    assert TurnIsRight(run[i], run[i + 1], p);
  }

  lemma {:induction false} LongCall(run: seq<State>, i: nat, k: nat, p: nat, c: nat)
    requires Run(run) && i < k < |run| - 1 && p in run[i].pcs && run[i].pcs[p].Entering?
    requires forall m {:trigger run[m]} | i < m <= k :: p in run[m].pcs && OnCall(run[m].pcs[p], c)
    requires p in run[k + 1].pcs && (run[k + 1].pcs[p].Answered? || run[k + 1].pcs[p].Crashed?)
    ensures run[i].pcs[p].sent == run[i].sh.token
    ensures run[k + 1].pcs[p] == Answered(Cancelled)
            || EndsWithCall(run[k + 1].pcs[p], c, run[k + 1], |run[i].stored|)
  {
    FlightAt(run, i, k, p, c);
    RunKeepsFlight(run, k, c, |run[i].stored|);
    RunEnds(run, k, p, c, |run[i].stored|);
  }

  /** The main result for refreshAfter401: it returns nil only when a retry makes sense. Either the
      token was no longer the one the request had sent, and then it returns at once, or the refresh it
      ran or waited for succeeded and a new token has been stored since; a failed refresh is returned
      as its error, and only a panic in its own callback ends it without an answer. */
  lemma {:induction false} NilMeansNewToken(run: seq<State>, i: nat, j: nat, p: nat, c: nat)
    requires Run(run) && IsCall(run, i, j, p, c)
    ensures run[i].pcs[p].sent != run[i].sh.token ==> j == i + 1 && run[j].pcs[p] == Answered(Nil)
    ensures run[i].pcs[p].sent == run[i].sh.token ==>
              j > i + 1
              && (run[j].pcs[p] == Answered(Cancelled) || EndsWithCall(run[j].pcs[p], c, run[j], |run[i].stored|))
  {
    if j == i + 1 {
      CheckEnds(run, i, p);
    } else {
      LongCall(run, i, j - 1, p, c);
    }
  }
}
