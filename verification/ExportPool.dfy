/** The worker pool of the table export (adt/custexport/export.go, RunExport).

    Workers take table names from a queue that is filled and closed before they start, and send one
    report per table into a bounded channel; a closer closes that channel when all workers are done;
    the one consumer counts the reports and writes the tables. The step system lets all of them
    interleave; what a table's export and a write turn out to be is arbitrary. */
module ExportPool {
  import opened Text
  import opened Wrappers

  /** TableExportResult: an error, or the number of rows read. */
  datatype Report = Report(table: string, error: Option<string>, rows: nat)

  const DEFAULT_WORKERS := 20
  const MAX_WORKERS := 40

  /** The number of workers RunExport starts. */
  function Workers(configured: int): (n: nat)
    ensures 1 <= n <= MAX_WORKERS
    ensures 1 <= configured <= MAX_WORKERS ==> n == configured
    ensures configured <= 0 ==> n == 20
    ensures configured > 40 ==> n == 40
  {
    if configured <= 0 then DEFAULT_WORKERS else if configured > MAX_WORKERS then MAX_WORKERS else configured
  }

  // ---------------------------------------------------------------------------
  // The consumer
  // ---------------------------------------------------------------------------

  /** The consumer's variables; written lists the tables handed to WriteTable, and skipped counts
      the results it drained after the writer had failed. */
  datatype Tally = Tally(exported: nat, empty: nat, totalRows: nat, errors: seq<(string, string)>,
                         writerErr: bool, skipped: nat, written: seq<string>)

  const NOTHING := Tally(0, 0, 0, [], false, 0, [])

  /** One received report; ok says whether writing it, if it comes to that, succeeds. */
  function Record(t: Tally, r: Report, ok: bool): Tally {
    if r.error.Some? then t.(errors := t.errors + [(r.table, r.error.value)])
    else if t.writerErr then t.(skipped := t.skipped + 1)
    else if r.rows == 0 then t.(empty := t.empty + 1, written := t.written + [r.table])
    else t.(totalRows := t.totalRows + r.rows, exported := t.exported + 1,
            written := t.written + [r.table], writerErr := !ok)
  }

  function Collected(reports: seq<Report>, writes: seq<bool>): Tally
    requires |reports| == |writes|
  {
    if reports == [] then NOTHING else
    var n := |reports| - 1;
    Record(Collected(reports[..n], writes[..n]), reports[n], writes[n])
  }

  lemma CollectedOneMore(reports: seq<Report>, writes: seq<bool>, r: Report, ok: bool)
    requires |reports| == |writes|
    ensures Collected(reports + [r], writes + [ok]) == Record(Collected(reports, writes), r, ok)
  {
    assert (reports + [r])[..|reports|] == reports && (writes + [ok])[..|writes|] == writes;
  }

  /** The consumer's loop. */
  method Consume(reports: seq<Report>, writes: seq<bool>) returns (t: Tally)
    requires |reports| == |writes|
    ensures t == Collected(reports, writes)
  {
    var writerErr := false;
    var exported: nat, empty: nat, totalRows: nat, skipped: nat := 0, 0, 0, 0;
    var tableErrors: seq<(string, string)>, written: seq<string> := [], [];
    for i := 0 to |reports|
      invariant Tally(exported, empty, totalRows, tableErrors, writerErr, skipped, written)
                == Collected(reports[..i], writes[..i])
    {
      var result := reports[i];
      assert reports[..i + 1] == reports[..i] + [result] && writes[..i + 1] == writes[..i] + [writes[i]];
      CollectedOneMore(reports[..i], writes[..i], result, writes[i]);
      if result.error.Some? {
        tableErrors := tableErrors + [(result.table, result.error.value)];
      } else if writerErr {
        skipped := skipped + 1;
      } else if result.rows == 0 {
        empty := empty + 1;
        written := written + [result.table];
      } else {
        totalRows := totalRows + result.rows;
        exported := exported + 1;
        written := written + [result.table];
        if !writes[i] {
          writerErr := true;
        }
      }
    }
    assert reports[..|reports|] == reports && writes[..|writes|] == writes;
    t := Tally(exported, empty, totalRows, tableErrors, writerErr, skipped, written);
  }

  predicate Succeeded(r: Report) { r.error.None? }

  function ErrorOf(r: Report): seq<(string, string)> { if Succeeded(r) then [] else [(r.table, r.error.value)] }

  function NameOf(r: Report): seq<string> { [r.table] }

  function NameOfFailed(r: Report): seq<string> { if Succeeded(r) then [] else [r.table] }

  function NameOfSucceeded(r: Report): seq<string> { if Succeeded(r) then [r.table] else [] }

  function NameOfFilled(r: Report): seq<string> { if Succeeded(r) && r.rows > 0 then [r.table] else [] }

  function NameOfEmpty(r: Report): seq<string> { if Succeeded(r) && r.rows == 0 then [r.table] else [] }

  function RowsIn(reports: seq<Report>): nat {
    if reports == [] then 0 else RowsIn(reports[..|reports| - 1]) + SuccessfulRows(reports[|reports| - 1])
  }

  function SuccessfulRows(r: Report): nat { if Succeeded(r) then r.rows else 0 }

  /** How many reports come before the writer has failed, the failing one included. */
  function UpToFailure(reports: seq<Report>, writes: seq<bool>): (f: nat)
    requires |reports| == |writes|
    ensures f <= |reports|
  {
    if reports == [] then 0 else
    var n := |reports| - 1;
    if WriterFails(reports[..n], writes[..n]) then UpToFailure(reports[..n], writes[..n]) else n + 1
  }

  /** Some result with rows was not written. */
  predicate WriterFails(reports: seq<Report>, writes: seq<bool>)
    requires |reports| == |writes|
  {
    exists i :: 0 <= i < |reports| && Succeeded(reports[i]) && reports[i].rows > 0 && !writes[i]
  }

  lemma WriterFailsOneMore(reports: seq<Report>, writes: seq<bool>, r: Report, ok: bool)
    requires |reports| == |writes|
    ensures WriterFails(reports + [r], writes + [ok]) <==>
            WriterFails(reports, writes) || (Succeeded(r) && r.rows > 0 && !ok)
  {
    var rs, ws := reports + [r], writes + [ok];
    if i :| 0 <= i < |reports| && Succeeded(reports[i]) && reports[i].rows > 0 && !writes[i] {
      assert rs[i] == reports[i] && ws[i] == writes[i];
    }
    if Succeeded(r) && r.rows > 0 && !ok {
      assert rs[|reports|] == r && ws[|reports|] == ok;
    }
  }

  lemma FlatMapSnoc<A, B>(f: A -> seq<B>, xs: seq<A>, x: A)
    ensures FlatMap(f, xs + [x]) == FlatMap(f, xs) + f(x)
  {
    FlatMapAppend(f, xs, [x]);
    FlatMapOne(f, x);
  }

  /** What the counters mean: every error is listed, also after the writer has failed; up to and
      including the first failed write, everything else is counted by whether it had rows, and
      handed to the writer; nothing is written after that. */
  ghost predicate Accounts(t: Tally, reports: seq<Report>, writes: seq<bool>)
    requires |reports| == |writes|
  {
    var f := UpToFailure(reports, writes);
    var before, after := reports[..f], reports[f..];
    && t.writerErr == WriterFails(reports, writes)
    && t.errors == FlatMap(ErrorOf, reports)
    && t.exported == |FlatMap(NameOfFilled, before)|
    && t.empty == |FlatMap(NameOfEmpty, before)|
    && t.totalRows == RowsIn(before)
    && t.written == FlatMap(NameOfSucceeded, before)
    && t.skipped == |FlatMap(NameOfSucceeded, after)|
  }

  lemma {:induction false} ConsumerAccounts(reports: seq<Report>, writes: seq<bool>)
    requires |reports| == |writes|
    ensures Accounts(Collected(reports, writes), reports, writes)
  {
    if reports != [] {
      var n := |reports| - 1;
      ConsumerAccounts(reports[..n], writes[..n]);
      assert reports == reports[..n] + [reports[n]] && writes == writes[..n] + [writes[n]];
      AccountsOneMore(reports[..n], writes[..n], reports[n], writes[n], Collected(reports[..n], writes[..n]));
    }
  }

  lemma AccountsOneMore(reports: seq<Report>, writes: seq<bool>, r: Report, ok: bool, t: Tally)
    requires |reports| == |writes| && Accounts(t, reports, writes)
    ensures Accounts(Record(t, r, ok), reports + [r], writes + [ok])
  {
    if WriterFails(reports, writes) {
      AccountsAfterFailure(reports, writes, r, ok, t);
    } else {
      AccountsBeforeFailure(reports, writes, r, ok, t);
    }
  }

  lemma {:induction false} AccountsAfterFailure(reports: seq<Report>, writes: seq<bool>, r: Report, ok: bool, t: Tally)
    requires |reports| == |writes| && Accounts(t, reports, writes) && WriterFails(reports, writes)
    ensures Accounts(Record(t, r, ok), reports + [r], writes + [ok])
  {
    var rs, ws, f := reports + [r], writes + [ok], UpToFailure(reports, writes);
    WriterFailsOneMore(reports, writes, r, ok);
    FlatMapSnoc(ErrorOf, reports, r);
    assert rs[..|reports|] == reports && ws[..|reports|] == writes;
    assert UpToFailure(rs, ws) == f && rs[..f] == reports[..f] && rs[f..] == reports[f..] + [r];
    FlatMapSnoc(NameOfSucceeded, reports[f..], r);
  }

  lemma {:induction false} AccountsBeforeFailure(reports: seq<Report>, writes: seq<bool>, r: Report, ok: bool, t: Tally)
    requires |reports| == |writes| && Accounts(t, reports, writes) && !WriterFails(reports, writes)
    ensures Accounts(Record(t, r, ok), reports + [r], writes + [ok])
  {
    var rs, ws, f := reports + [r], writes + [ok], UpToFailure(reports, writes);
    WriterFailsOneMore(reports, writes, r, ok);
    FlatMapSnoc(ErrorOf, reports, r);
    assert rs[..|reports|] == reports && ws[..|reports|] == writes;
    NoFailureYet(reports, writes);
    assert reports[..f] == reports && UpToFailure(rs, ws) == f + 1 && rs[..f + 1] == rs && rs[f + 1..] == [];
    FlatMapSnoc(NameOfFilled, reports, r);
    FlatMapSnoc(NameOfEmpty, reports, r);
    FlatMapSnoc(NameOfSucceeded, reports, r);
    assert reports[f..] == [];
  }

  lemma NoFailureYet(reports: seq<Report>, writes: seq<bool>)
    requires |reports| == |writes| && !WriterFails(reports, writes)
    ensures UpToFailure(reports, writes) == |reports|
  {
    if reports != [] {
      var n := |reports| - 1;
      assert reports == reports[..n] + [reports[n]] && writes == writes[..n] + [writes[n]];
      WriterFailsOneMore(reports[..n], writes[..n], reports[n], writes[n]);
      assert !WriterFails(reports[..n], writes[..n]);
    }
  }

  predicate SplitInto<T(==)>(all: seq<T>, good: seq<T>, bad: seq<T>) { multiset(all) == multiset(good) + multiset(bad) }

  lemma SplitStep<T>(x: T, all: seq<T>, good: seq<T>, bad: seq<T>)
    requires SplitInto(all, good, bad)
    ensures SplitInto([x] + all, [x] + good, bad) && SplitInto([x] + all, good, [x] + bad)
  {}

  /** Every report is either a failure or a success. */
  lemma {:induction false} NamesSplit(reports: seq<Report>)
    ensures SplitInto(FlatMap(NameOf, reports), FlatMap(NameOfSucceeded, reports), FlatMap(NameOfFailed, reports))
  {
    if reports != [] {
      NamesSplit(reports[1..]);
      NamesSplitStep(reports, reports[0], reports[1..]);
    }
  }

  lemma {:induction false} NamesSplitStep(reports: seq<Report>, r: Report, rest: seq<Report>)
    requires reports == [r] + rest
    requires SplitInto(FlatMap(NameOf, rest), FlatMap(NameOfSucceeded, rest), FlatMap(NameOfFailed, rest))
    ensures SplitInto(FlatMap(NameOf, reports), FlatMap(NameOfSucceeded, reports), FlatMap(NameOfFailed, reports))
  {
    var all, good, bad := FlatMap(NameOf, rest), FlatMap(NameOfSucceeded, rest), FlatMap(NameOfFailed, rest);
    SplitStep(r.table, all, good, bad);
    FlatMapCons(NameOf, r, rest);
    FlatMapCons(NameOfSucceeded, r, rest);
    FlatMapCons(NameOfFailed, r, rest);
    assert [] + good == good && [] + bad == bad;
  }

  lemma {:induction false} NamesCount(reports: seq<Report>)
    ensures |FlatMap(NameOf, reports)| == |reports|
            == |FlatMap(NameOfFilled, reports)| + |FlatMap(NameOfEmpty, reports)| + |FlatMap(ErrorOf, reports)|
  {
    if reports != [] {
      NamesCount(reports[1..]);
    }
  }

  // ---------------------------------------------------------------------------
  // The pool
  // ---------------------------------------------------------------------------

  /** A worker waits for work, exports a table, waits to send its report, or has returned. */
  datatype Worker = Idle | Busy(table: string) | Sending(report: Report) | Finished

  datatype State = State(work: seq<string>, workers: seq<Worker>, channel: seq<Report>, closed: bool,
                         seen: seq<Report>, writes: seq<bool>, tally: Tally, returned: bool)

  datatype Step =
    | Take(w: nat)
    | Export(w: nat, error: Option<string>, rows: nat)
    | Send(w: nat)
    | Leave(w: nat)
    | CloseResults
    | Receive(ok: bool)
    | Return

  function Capacity(s: State): nat { 2 * |s.workers| }

  predicate AllFinished(s: State) { forall w | 0 <= w < |s.workers| :: s.workers[w].Finished? }

  /** A send blocks while the channel is full, a receive while it is empty and open. */
  predicate Enabled(s: State, step: Step) {
    match step
    case Take(w) => w < |s.workers| && s.workers[w].Idle? && s.work != []
    case Export(w, _, _) => w < |s.workers| && s.workers[w].Busy?
    case Send(w) => w < |s.workers| && s.workers[w].Sending? && |s.channel| < Capacity(s)
    case Leave(w) => w < |s.workers| && s.workers[w].Idle? && s.work == []
    case CloseResults => AllFinished(s) && !s.closed
    case Receive(_) => s.channel != [] && !s.returned
    case Return => s.channel == [] && s.closed && !s.returned
  }

  ghost predicate CanStep(s: State) { exists step :: Enabled(s, step) }

  function Apply(s: State, step: Step): State
    requires Enabled(s, step)
  {
    match step
    case Take(w) => s.(work := s.work[1..], workers := s.workers[w := Busy(s.work[0])])
    case Export(w, error, rows) => s.(workers := s.workers[w := Sending(Report(s.workers[w].table, error, rows))])
    case Send(w) => s.(channel := s.channel + [s.workers[w].report], workers := s.workers[w := Idle])
    case Leave(w) => s.(workers := s.workers[w := Finished])
    case CloseResults => s.(closed := true)
    case Receive(ok) =>
      s.(channel := s.channel[1..], seen := s.seen + [s.channel[0]], writes := s.writes + [ok],
         tally := Record(s.tally, s.channel[0], ok))
    case Return => s.(returned := true)
  }

  predicate Init(s: State, tables: seq<string>, configured: int) {
    && s.work == tables && |s.workers| == Workers(configured)
    && (forall w | 0 <= w < |s.workers| :: s.workers[w] == Idle)
    && s.channel == [] && !s.closed && s.seen == [] && s.writes == [] && s.tally == NOTHING && !s.returned
  }

  ghost predicate Next(s: State, s': State) {
    exists step :: Enabled(s, step) && s' == Apply(s, step)
  }

  ghost predicate Run(run: seq<State>, tables: seq<string>, configured: int) {
    run != [] && Init(run[0], tables, configured) && forall i | 0 <= i < |run| - 1 :: Next(run[i], run[i + 1])
  }

  function Held(w: Worker): seq<string> {
    match w
    case Busy(t) => [t]
    case Sending(r) => [r.table]
    case _ => []
  }

  /** Where each table is: reported, on its way, in a worker's hands, or waiting. */
  function Places(s: State): multiset<string> {
    multiset(FlatMap(NameOf, s.seen)) + multiset(FlatMap(NameOf, s.channel))
    + multiset(FlatMap(Held, s.workers)) + multiset(s.work)
  }

  /** No table is lost or reported twice; the channel keeps its bound; nothing is sent on a closed
      channel, as a worker that can send has not finished. */
  ghost predicate Inv(s: State, tables: seq<string>) {
    Places(s) == multiset(tables) && Coherent(s)
  }

  ghost predicate Coherent(s: State) {
    && 1 <= |s.workers| && |s.channel| <= Capacity(s)
    && |s.seen| == |s.writes| && s.tally == Collected(s.seen, s.writes)
    && (forall w | 0 <= w < |s.workers| && s.workers[w].Finished? :: s.work == [])
    && (s.closed ==> AllFinished(s))
    && (s.returned ==> s.closed && s.channel == [])
  }

  /** What a worker holds changes, and nothing else in the workers' hands. */
  lemma HeldAfter(workers: seq<Worker>, w: nat, next: Worker)
    requires w < |workers|
    ensures multiset(FlatMap(Held, workers[w := next])) + multiset(Held(workers[w]))
            == multiset(FlatMap(Held, workers)) + multiset(Held(next))
  {
    var workers' := workers[w := next];
    FlatMapCut(Held, workers, w);
    FlatMapCut(Held, workers', w);
    assert workers'[..w] == workers[..w] && workers'[w + 1..] == workers[w + 1..];
  }

  /** A worker's step: what it takes from the queue and its hands goes to its hands and the channel. */
  lemma WorkerKeepsPlaces(s: State, w: nat, next: Worker, work: seq<string>, sent: seq<Report>)
    requires w < |s.workers|
    requires multiset(Held(s.workers[w])) + multiset(s.work)
             == multiset(FlatMap(NameOf, sent)) + multiset(Held(next)) + multiset(work)
    ensures Places(s.(workers := s.workers[w := next], work := work, channel := s.channel + sent)) == Places(s)
  {
    HeldAfter(s.workers, w, next);
    FlatMapAppend(NameOf, s.channel, sent);
    Exchange(multiset(FlatMap(NameOf, s.seen)), multiset(FlatMap(NameOf, s.channel)), multiset(FlatMap(NameOf, sent)),
             multiset(FlatMap(Held, s.workers)), multiset(FlatMap(Held, s.workers[w := next])),
             multiset(Held(s.workers[w])), multiset(Held(next)), multiset(s.work), multiset(work));
  }

  lemma Exchange<T>(seen: multiset<T>, channel: multiset<T>, sent: multiset<T>, held: multiset<T>, held': multiset<T>,
                    before: multiset<T>, after: multiset<T>, work: multiset<T>, work': multiset<T>)
    requires held' + before == held + after && before + work == sent + after + work'
    ensures seen + (channel + sent) + held' + work' == seen + channel + held + work
  {
    var l, r := seen + (channel + sent) + held' + work', seen + channel + held + work;
    forall x: T ensures l[x] == r[x] {
      assert (held' + before)[x] == (held + after)[x] && (before + work)[x] == (sent + after + work')[x];
    }
  }

  lemma ReceiveKeepsPlaces(s: State, ok: bool)
    requires Enabled(s, Receive(ok))
    ensures Places(Apply(s, Receive(ok))) == Places(s)
  {
    var r, rest := s.channel[0], s.channel[1..];
    assert s.channel == [r] + rest;
    FlatMapSnoc(NameOf, s.seen, r);
    FlatMapCons(NameOf, r, rest);
  }

  lemma TakeKeepsPlaces(s: State, w: nat)
    requires Enabled(s, Take(w))
    ensures Places(Apply(s, Take(w))) == Places(s)
  {
    assert s.work == [s.work[0]] + s.work[1..] && s.channel + [] == s.channel;
    WorkerKeepsPlaces(s, w, Busy(s.work[0]), s.work[1..], []);
  }

  lemma SendKeepsPlaces(s: State, w: nat)
    requires Enabled(s, Send(w))
    ensures Places(Apply(s, Send(w))) == Places(s)
  {
    FlatMapOne(NameOf, s.workers[w].report);
    WorkerKeepsPlaces(s, w, Idle, s.work, [s.workers[w].report]);
  }

  /** The worker keeps the table it holds, if any. */
  lemma HoldingKeepsPlaces(s: State, w: nat, next: Worker)
    requires w < |s.workers| && Held(next) == Held(s.workers[w])
    ensures Places(s.(workers := s.workers[w := next])) == Places(s)
  {
    var workers' := s.workers[w := next];
    FlatMapCut(Held, s.workers, w);
    FlatMapCut(Held, workers', w);
    assert workers'[..w] == s.workers[..w] && workers'[w + 1..] == s.workers[w + 1..];
  }

  lemma StepKeepsPlaces(s: State, step: Step)
    requires Enabled(s, step)
    ensures Places(Apply(s, step)) == Places(s)
  {
    match step
    case Take(w) =>
      TakeKeepsPlaces(s, w);
    case Export(w, error, rows) =>
      HoldingKeepsPlaces(s, w, Sending(Report(s.workers[w].table, error, rows)));
    case Send(w) =>
      SendKeepsPlaces(s, w);
    case Leave(w) =>
      HoldingKeepsPlaces(s, w, Finished);
    case Receive(ok) =>
      ReceiveKeepsPlaces(s, ok);
    case _ =>
  }

  lemma StepKeepsCoherent(s: State, step: Step)
    requires Coherent(s) && Enabled(s, step)
    ensures Coherent(Apply(s, step))
  {
    if step.Receive? {
      CollectedOneMore(s.seen, s.writes, s.channel[0], step.ok);
    }
  }

  lemma StepKeepsInv(s: State, step: Step, tables: seq<string>)
    requires Inv(s, tables) && Enabled(s, step)
    ensures Inv(Apply(s, step), tables)
  {
    StepKeepsPlaces(s, step);
    StepKeepsCoherent(s, step);
  }

  lemma InitInv(s: State, tables: seq<string>, configured: int)
    requires Init(s, tables, configured)
    ensures Inv(s, tables)
  {
    NothingHeld(s.workers);
  }

  lemma {:induction false} NothingHeld(workers: seq<Worker>)
    requires forall w | 0 <= w < |workers| :: workers[w] == Idle || workers[w] == Finished
    ensures FlatMap(Held, workers) == []
  {
    if workers != [] {
      NothingHeld(workers[1..]);
    }
  }

  /** Every reachable state keeps the invariant: no table is ever lost or reported twice. */
  lemma {:induction false} RunsKeepInv(run: seq<State>, tables: seq<string>, configured: int)
    requires Run(run, tables, configured)
    ensures Inv(run[|run| - 1], tables)
  {
    var n := |run| - 1;
    if n == 0 {
      InitInv(run[0], tables, configured);
    } else {
      RunsKeepInv(run[..n], tables, configured);
      NextKeepsInv(run[n - 1], run[n - 1 + 1], tables);
    }
  }

  lemma NextKeepsInv(s: State, s': State, tables: seq<string>)
    requires Inv(s, tables) && Next(s, s')
    ensures Inv(s', tables)
  {
    var step :| Enabled(s, step) && s' == Apply(s, step);
    StepKeepsInv(s, step, tables);
  }

  /** Nothing deadlocks: in every state the invariant allows, something can happen, until the
      consumer has returned, and then nothing can. */
  lemma StuckExactlyWhenReturned(s: State, tables: seq<string>)
    requires Inv(s, tables)
    ensures CanStep(s) <==> !s.returned
  {
    if s.returned {
      forall step ensures !Enabled(s, step) {}
    } else if s.channel != [] {
      assert Enabled(s, Receive(true));
    } else if s.closed {
      assert Enabled(s, Return);
    } else if AllFinished(s) {
      assert Enabled(s, CloseResults);
    } else {
      var w :| 0 <= w < |s.workers| && !s.workers[w].Finished?;
      match s.workers[w]
      case Idle => assert Enabled(s, if s.work == [] then Leave(w) else Take(w));
      case Busy(_) => assert Enabled(s, Export(w, None, 0));
      case Sending(_) => assert Enabled(s, Send(w));
    }
  }

  // ---------------------------------------------------------------------------
  // Every run ends
  // ---------------------------------------------------------------------------

  function Weight(w: Worker): nat {
    match w case Idle => 1 case Busy(_) => 4 case Sending(_) => 3 case Finished => 0
  }

  function Weights(workers: seq<Worker>): nat {
    if workers == [] then 0 else Weight(workers[0]) + Weights(workers[1..])
  }

  /** The steps still possible. */
  function Remaining(s: State): nat {
    4 * |s.work| + Weights(s.workers) + |s.channel| + (if s.closed then 0 else 1) + (if s.returned then 0 else 1)
  }

  lemma {:induction false} WeightsAfter(workers: seq<Worker>, w: nat, next: Worker)
    requires w < |workers|
    ensures Weights(workers[w := next]) + Weight(workers[w]) == Weights(workers) + Weight(next)
  {
    if w > 0 {
      WeightsAfter(workers[1..], w - 1, next);
      assert workers[w := next][1..] == workers[1..][w - 1 := next];
    }
  }

  lemma StepsRunOut(s: State, step: Step)
    requires Enabled(s, step)
    ensures Remaining(Apply(s, step)) == Remaining(s) - 1
  {
    match step
    case Take(w) => WeightsAfter(s.workers, w, Busy(s.work[0]));
    case Export(w, error, rows) => WeightsAfter(s.workers, w, Sending(Report(s.workers[w].table, error, rows)));
    case Send(w) => WeightsAfter(s.workers, w, Idle);
    case Leave(w) => WeightsAfter(s.workers, w, Finished);
    case _ =>
  }

  lemma {:induction false} IdleWeights(workers: seq<Worker>)
    requires forall w | 0 <= w < |workers| :: workers[w] == Idle
    ensures Weights(workers) == |workers|
  {
    if workers != [] {
      IdleWeights(workers[1..]);
    }
  }

  /** Every run is bounded: a step uses up one of the 4 per table, 1 per worker and 2 at the end. */
  lemma {:induction false} RunsAreBounded(run: seq<State>, tables: seq<string>, configured: int)
    requires Run(run, tables, configured)
    ensures |run| - 1 + Remaining(run[|run| - 1]) == 4 * |tables| + Workers(configured) + 2
  {
    var n := |run| - 1;
    if n == 0 {
      IdleWeights(run[0].workers);
    } else {
      RunsAreBounded(run[..n], tables, configured);
      assert Next(run[n - 1], run[n - 1 + 1]) && run[..n][n - 1] == run[n - 1];
      var step :| Enabled(run[n - 1], step) && run[n] == Apply(run[n - 1], step);
      StepsRunOut(run[n - 1], step);
    }
  }

  /** What RunExport returns: the writer's error, or the summary's counters. */
  datatype Result = WriterError | Summary(totalTables: nat, exported: nat, empty: nat, totalRows: nat,
                                          errors: seq<(string, string)>)

  function ResultOf(tables: seq<string>, t: Tally): Result {
    if t.writerErr then WriterError else Summary(|tables|, t.exported, t.empty, t.totalRows, t.errors)
  }

  lemma {:induction false} NamesOfErrors(reports: seq<Report>)
    ensures FlatMap(FirstOf, FlatMap(ErrorOf, reports)) == FlatMap(NameOfFailed, reports)
  {
    if reports != [] {
      NamesOfErrors(reports[1..]);
      FlatMapAppend(FirstOf, ErrorOf(reports[0]), FlatMap(ErrorOf, reports[1..]));
      if !Succeeded(reports[0]) {
        FlatMapOne(FirstOf, (reports[0].table, reports[0].error.value));
      }
    }
  }

  function FirstOf(e: (string, string)): seq<string> { [e.0] }

  /** The main result. However the workers, the closer and the consumer interleave, a run that can
      go no further has returned after exactly 4 steps per table, one per worker and two; the
      tables it reports are the tables it was given, each once; and unless the writer failed, each
      was either handed to the writer or listed with its error, and the counters add up. */
  lemma EveryRunReportsEveryTable(run: seq<State>, tables: seq<string>, configured: int)
    requires Run(run, tables, configured)
    requires !CanStep(run[|run| - 1])
    ensures var s := run[|run| - 1];
            && |run| - 1 == 4 * |tables| + Workers(configured) + 2
            && multiset(FlatMap(NameOf, s.seen)) == multiset(tables) && |s.seen| == |s.writes|
            && match ResultOf(tables, s.tally)
               case WriterError => WriterFails(s.seen, s.writes)
               case Summary(total, exported, empty, rows, errors) =>
                 && total == exported + empty + |errors|
                 && rows == RowsIn(s.seen)
                 && multiset(s.tally.written) + multiset(FlatMap(FirstOf, errors)) == multiset(tables)
  {
    var s := run[|run| - 1];
    RunsKeepInv(run, tables, configured);
    StuckExactlyWhenReturned(s, tables);
    RunsAreBounded(run, tables, configured);
    ReturnedIsDone(s, tables);
    SummaryAddsUp(s.seen, s.writes, tables);
  }

  lemma ReturnedIsDone(s: State, tables: seq<string>)
    requires Inv(s, tables) && s.returned
    ensures Remaining(s) == 0 && multiset(FlatMap(NameOf, s.seen)) == multiset(tables)
  {
    assert s.workers[0].Finished?;
    NothingHeld(s.workers);
    FinishedWeights(s.workers);
  }

  lemma {:induction false} FinishedWeights(workers: seq<Worker>)
    requires forall w | 0 <= w < |workers| :: workers[w].Finished?
    ensures Weights(workers) == 0
  {
    if workers != [] {
      FinishedWeights(workers[1..]);
    }
  }

  lemma SummaryAddsUp(seen: seq<Report>, writes: seq<bool>, tables: seq<string>)
    requires |seen| == |writes| && multiset(FlatMap(NameOf, seen)) == multiset(tables)
    ensures var t := Collected(seen, writes);
            && t.writerErr == WriterFails(seen, writes)
            && (!t.writerErr ==>
                  && |tables| == t.exported + t.empty + |t.errors|
                  && t.totalRows == RowsIn(seen)
                  && multiset(t.written) + multiset(FlatMap(FirstOf, t.errors)) == multiset(tables))
  {
    ConsumerAccounts(seen, writes);
    if !WriterFails(seen, writes) {
      NoFailureYet(seen, writes);
      assert seen[..|seen|] == seen;
      NamesSplit(seen);
      NamesCount(seen);
      NamesOfErrors(seen);
      assert |tables| == |multiset(tables)| == |FlatMap(NameOf, seen)|;
    }
  }
}
