/** Rolling a transport back (adt/rollback.go: RollbackTransportWithOptions).

    The server is a set of arbitrary answers, one per question; each is asked at most once. */
module Rollback {
  import opened Text
  import opened RestorePlan
  import opened RollbackReport
  import opened RollbackTargets
  import opened Deletion
  import opened Wrappers

  /** The answers of GetVersionHistory and tadirSourceSystem. */
  datatype History = Versions(versions: seq<Version>) | HistoryFailed(err: Error)
  datatype Origin = System(name: string) | OriginFailed(err: Error)

  datatype World = World(
    lookup: nat -> Lookup,
    history: string -> History,
    restore: (string, seq<Write>) -> Option<Error>,
    origin: string -> Origin,
    delete: DeleteAnswers)

  // ---------------------------------------------------------------------------
  // Restoring
  // ---------------------------------------------------------------------------

  datatype Outcome = Restored | Created | RestoreFailed(err: Error)

  /** What becomes of one unit of source: created by the transport exactly when its history is not
      empty and lies wholly in it; restored exactly when a plan exists and can be written back. */
  ghost predicate OutcomeIsRight(o: Outcome, w: World, uri: string, own: set<string>) {
    match w.history(uri)
    case HistoryFailed(err) => o == RestoreFailed(err)
    case Versions(vs) =>
      if vs == [] then o.RestoreFailed? && !o.err.Unauthorized?
      else if AllInside(vs, own) then o == Created
      else if !Restorable(vs, own) then o.RestoreFailed? && !o.err.Unauthorized?
      else exists writes ::
             && PlanIsRight(Writes(writes), vs, own)
             && o == if w.restore(uri, writes).None? then Restored else RestoreFailed(w.restore(uri, writes).value)
  }

  method RollbackOrClassify(w: World, uri: string, transports: seq<string>) returns (o: Outcome)
    ensures OutcomeIsRight(o, w, uri, Folded(transports))
  {
    var history := w.history(uri);
    if history.HistoryFailed? {
      return RestoreFailed(history.err);
    }
    var versions := history.versions;
    if |versions| == 0 {
      return RestoreFailed(Other("no version history"));
    }
    var created := CreatedByTransport(versions, transports);
    if created {
      return Created;
    }
    var plan := PlanRestore(versions, transports);
    PlanExistsExactly(plan, versions, Folded(transports));
    if !plan.Writes? {
      return RestoreFailed(Other("no version before the transport"));
    }
    var err := w.restore(uri, plan.writes);
    return if err.Some? then RestoreFailed(err.value) else Restored;
  }

  datatype Progress = Progress(restored: seq<Entry>, failed: seq<Entry>, created: seq<Entry>,
                               pending: seq<CreatedObject>, partial: bool, rejected: Option<Error>, asked: nat)

  function EntryFor(tg: Target, reason: Reason): Entry { Entry(UnitOf(tg.uri), tg.typ, tg.name, reason) }

  function ObjectFor(tg: Target): CreatedObject { CreatedObject(UnitOf(tg.uri), tg.typ, tg.name, tg.uri, None, false) }

  /** One target; o counts only if it is asked for. */
  function RestoreOne(p: Progress, tg: Target, o: Outcome): Progress {
    if p.rejected.Some? then p.(failed := p.failed + [EntryFor(tg, NotAttempted(p.rejected.value))])
    else
      var p := p.(asked := p.asked + 1);
      match o
      case RestoreFailed(err) =>
        p.(failed := p.failed + [EntryFor(tg, NotRestored(err))],
           rejected := if err.Unauthorized? then Some(err) else None)
      case Created =>
        if tg.tadir then p.(pending := p.pending + [ObjectFor(tg)])
        else p.(partial := true, created := p.created + [EntryFor(tg, CreatedSubObject)])
      case Restored => p.(restored := p.restored + [EntryFor(tg, NoReason)])
  }

  /** The restores, after the lookups left partial and rejected. */
  function RestoreAll(targets: seq<Target>, outcomes: seq<Outcome>, partial: bool, rejected: Option<Error>): Progress
    requires |outcomes| == |targets|
  {
    if targets == [] then Progress([], [], [], [], partial, rejected, 0) else
    var n := |targets| - 1;
    RestoreOne(RestoreAll(targets[..n], outcomes[..n], partial, rejected), targets[n], outcomes[n])
  }

  lemma RestoreAllSnoc(targets: seq<Target>, outcomes: seq<Outcome>, partial: bool, rejected: Option<Error>, tg: Target,
                       o: Outcome)
    requires |outcomes| == |targets|
    ensures RestoreAll(targets + [tg], outcomes + [o], partial, rejected)
            == RestoreOne(RestoreAll(targets, outcomes, partial, rejected), tg, o)
  {
    assert (targets + [tg])[..|targets|] == targets && (outcomes + [o])[..|targets|] == outcomes;
  }

  /** Every outcome that was asked for is right. */
  ghost predicate OutcomesAreRight(targets: seq<Target>, outcomes: seq<Outcome>, asked: nat, w: World,
                                   own: set<string>)
  {
    asked <= |outcomes| == |targets|
    && forall i {:trigger outcomes[i]} | 0 <= i < asked :: OutcomeIsRight(outcomes[i], w, targets[i].uri, own)
  }

  /** The variables of the loop are those of p. */
  predicate At(p: Progress, pending: seq<CreatedObject>, partial: bool, rejected: Option<Error>, asked: nat) {
    p.pending == pending && p.partial == partial && p.rejected == rejected && p.asked == asked
  }

  /** The lists base with what p adds to them. */
  function With(base: Lists, p: Progress): Lists {
    base.(restored := base.restored + p.restored, failed := base.failed + p.failed, created := base.created + p.created)
  }

  /** One pass of the loop over the targets. */
  method RestoreTarget(w: World, tg: Target, transports: seq<string>, ghost base: Lists, ghost p: Progress,
                       pending: seq<CreatedObject>, partial: bool, rejected: Option<Error>, asked: nat, result: Result)
    returns (pending': seq<CreatedObject>, partial': bool, rejected': Option<Error>, asked': nat, ghost o: Outcome)
    requires At(p, pending, partial, rejected, asked)
    requires result.View() == With(base, p)
    modifies result
    ensures var p' := RestoreOne(p, tg, o);
            && At(p', pending', partial', rejected', asked')
            && result.View() == With(base, p')
    ensures rejected.None? ==> OutcomeIsRight(o, w, tg.uri, Folded(transports))
  {
    pending', partial', rejected', asked' := pending, partial, rejected, asked;
    if rejected.Some? {
      result.failed := result.failed + [EntryFor(tg, NotAttempted(rejected.value))];
      o := Restored;
      return;
    }
    var outcome := RollbackOrClassify(w, tg.uri, transports);
    asked' := asked + 1;
    o := outcome;
    match outcome
    case RestoreFailed(err) =>
      if err.Unauthorized? {
        rejected' := Some(err);
      }
      result.failed := result.failed + [EntryFor(tg, NotRestored(err))];
    case Created =>
      if !tg.tadir {
        partial' := true;
        result.created := result.created + [EntryFor(tg, CreatedSubObject)];
      } else {
        pending' := pending + [ObjectFor(tg)];
      }
    case Restored =>
      result.restored := result.restored + [EntryFor(tg, NoReason)];
  }

  method RestoreTargets(w: World, targets: seq<Target>, transports: seq<string>, partial0: bool,
                        rejected0: Option<Error>, result: Result)
    returns (pending: seq<CreatedObject>, partial: bool, rejected: Option<Error>, asked: nat,
             ghost outcomes: seq<Outcome>)
    modifies result
    ensures OutcomesAreRight(targets, outcomes, asked, w, Folded(transports))
    ensures var p := RestoreAll(targets, outcomes, partial0, rejected0);
            && At(p, pending, partial, rejected, asked) && result.View() == With(old(result.View()), p)
  {
    pending, partial, rejected, asked, outcomes := [], partial0, rejected0, 0, [];
    ghost var own, p := Folded(transports), RestoreAll([], [], partial0, rejected0);
    for i := 0 to |targets|
      invariant Passed(p, targets[..i], outcomes, partial0, rejected0, w, own)
      invariant At(p, pending, partial, rejected, asked)
      invariant result.View() == With(old(result.View()), p)
    {
      ghost var o;
      ghost var before := p;
      pending, partial, rejected, asked, o :=
        RestoreTarget(w, targets[i], transports, old(result.View()), p, pending, partial, rejected, asked, result);
      p := RestoreOne(before, targets[i], o);
      PassedOneMore(before, targets[..i], outcomes, partial0, rejected0, w, own, targets[i], o);
      outcomes := outcomes + [o];
      assert targets[..i + 1] == targets[..i] + [targets[i]];
    }
    assert targets[..|targets|] == targets;
  }

  /** p is where the loop is after these targets. */
  ghost predicate Passed(p: Progress, targets: seq<Target>, outcomes: seq<Outcome>, partial: bool,
                         rejected: Option<Error>, w: World, own: set<string>)
  {
    && |outcomes| == |targets| && p == RestoreAll(targets, outcomes, partial, rejected)
    && (p.rejected.None? ==> p.asked == |targets|)
    && OutcomesAreRight(targets, outcomes, p.asked, w, own)
  }

  lemma PassedOneMore(p: Progress, targets: seq<Target>, outcomes: seq<Outcome>, partial: bool, rejected: Option<Error>,
                      w: World, own: set<string>, tg: Target, o: Outcome)
    requires Passed(p, targets, outcomes, partial, rejected, w, own)
    requires p.rejected.None? ==> OutcomeIsRight(o, w, tg.uri, own)
    ensures Passed(RestoreOne(p, tg, o), targets + [tg], outcomes + [o], partial, rejected, w, own)
  {
    RestoreAllSnoc(targets, outcomes, partial, rejected, tg, o);
    OutcomesOneMore(targets, outcomes, p.asked, RestoreOne(p, tg, o).asked, w, own, tg, o);
  }

  lemma OutcomesOneMore(targets: seq<Target>, outcomes: seq<Outcome>, asked: nat, asked': nat, w: World,
                        own: set<string>, tg: Target, o: Outcome)
    requires OutcomesAreRight(targets, outcomes, asked, w, own)
    requires asked' == asked || (asked' == asked + 1 && asked == |targets| && OutcomeIsRight(o, w, tg.uri, own))
    ensures OutcomesAreRight(targets + [tg], outcomes + [o], asked', w, own)
  {}

  /** Nothing is sent after a 401: only the last restore can have been answered with one, and none is
      tried after a lookup was. */
  lemma {:induction false} RestoresStopAt401(targets: seq<Target>, outcomes: seq<Outcome>, partial: bool,
                                             rejected: Option<Error>)
    requires |outcomes| == |targets|
    ensures var p := RestoreAll(targets, outcomes, partial, rejected);
            && p.asked <= |targets| && (rejected.Some? ==> p.asked == 0 && p.rejected == rejected)
            && (p.rejected.None? ==> p.asked == |targets|)
            && (forall i {:trigger outcomes[i]} | 0 <= i < p.asked && outcomes[i] == RestoreFailed(Unauthorized) ::
                  i == p.asked - 1 && p.rejected.Some?)
  {
    if targets != [] {
      var n := |targets| - 1;
      RestoresStopAt401(targets[..n], outcomes[..n], partial, rejected);
      assert forall i {:trigger outcomes[i]} | 0 <= i < n :: outcomes[..n][i] == outcomes[i];
    }
  }

  function ProgressIds(p: Progress): multiset<Id> {
    Bag(p.restored) + Bag(p.failed) + Bag(p.created) + multiset(ObjectIds(p.pending))
  }

  lemma RestoredOneMore(p: Progress, e: Entry)
    ensures multiset(EntryIds(p.restored + [e])) + multiset(EntryIds(p.failed)) + multiset(EntryIds(p.created))
            + multiset(ObjectIds(p.pending)) == ProgressIds(p) + multiset{e.id}
  {
    EntryIdsSnoc(p.restored, e);
  }

  lemma FailedOneMore(p: Progress, e: Entry)
    ensures multiset(EntryIds(p.restored)) + multiset(EntryIds(p.failed + [e])) + multiset(EntryIds(p.created))
            + multiset(ObjectIds(p.pending)) == ProgressIds(p) + multiset{e.id}
  {
    EntryIdsSnoc(p.failed, e);
  }

  lemma CreatedOneMore(p: Progress, e: Entry)
    ensures multiset(EntryIds(p.restored)) + multiset(EntryIds(p.failed)) + multiset(EntryIds(p.created + [e]))
            + multiset(ObjectIds(p.pending)) == ProgressIds(p) + multiset{e.id}
  {
    EntryIdsSnoc(p.created, e);
  }

  lemma PendingOneMore(p: Progress, o: CreatedObject)
    ensures multiset(EntryIds(p.restored)) + multiset(EntryIds(p.failed)) + multiset(EntryIds(p.created))
            + multiset(ObjectIds(p.pending + [o])) == ProgressIds(p) + multiset{o.id}
  {
    ObjectIdsSnoc(p.pending, o);
  }

  lemma RestoreOneIds(p: Progress, tg: Target, o: Outcome)
    ensures ProgressIds(RestoreOne(p, tg, o)) == ProgressIds(p) + multiset{UnitOf(tg.uri)}
  {
    if p.rejected.Some? {
      FailedOneMore(p, EntryFor(tg, NotAttempted(p.rejected.value)));
    } else {
      match o
      case RestoreFailed(err) => FailedOneMore(p, EntryFor(tg, NotRestored(err)));
      case Created =>
        if tg.tadir {
          PendingOneMore(p, ObjectFor(tg));
        } else {
          CreatedOneMore(p, EntryFor(tg, CreatedSubObject));
        }
      case Restored => RestoredOneMore(p, EntryFor(tg, NoReason));
    }
  }

  predicate Accounted(p: Progress, targets: seq<Target>) { ProgressIds(p) == multiset(TargetIds(targets)) }

  lemma AccountedOneMore(p: Progress, targets: seq<Target>, tg: Target, o: Outcome)
    requires Accounted(p, targets)
    ensures Accounted(RestoreOne(p, tg, o), targets + [tg])
  {
    RestoreOneIds(p, tg, o);
    assert TargetIds(targets + [tg]) == TargetIds(targets) + [UnitOf(tg.uri)];
  }

  /** Each target ends up in exactly one list, or among the objects the transport created. */
  lemma {:induction false} EachTargetOnce(targets: seq<Target>, outcomes: seq<Outcome>, partial: bool,
                                          rejected: Option<Error>)
    requires |outcomes| == |targets|
    ensures Accounted(RestoreAll(targets, outcomes, partial, rejected), targets)
  {
    if targets != [] {
      var n := |targets| - 1;
      EachTargetOnce(targets[..n], outcomes[..n], partial, rejected);
      var before := RestoreAll(targets[..n], outcomes[..n], partial, rejected);
      AccountedOneMore(before, targets[..n], targets[n], outcomes[n]);
      assert targets == targets[..n] + [targets[n]];
      assert RestoreAll(targets, outcomes, partial, rejected) == RestoreOne(before, targets[n], outcomes[n]);
    }
  }

  /** An object found created: which target it is, and that the answer says so. */
  ghost predicate IsCreatedTarget(o: CreatedObject, targets: seq<Target>, w: World, own: set<string>) {
    exists tg :: tg in targets && o == ObjectFor(tg) && tg.tadir && OutcomeIsRight(Created, w, tg.uri, own)
  }

  lemma {:induction false} PendingAreCreated(targets: seq<Target>, outcomes: seq<Outcome>, partial: bool,
                                             rejected: Option<Error>, w: World, own: set<string>)
    requires |outcomes| == |targets|
    requires OutcomesAreRight(targets, outcomes, RestoreAll(targets, outcomes, partial, rejected).asked, w, own)
    ensures forall o | o in RestoreAll(targets, outcomes, partial, rejected).pending ::
              IsCreatedTarget(o, targets, w, own)
  {
    if targets != [] {
      var n := |targets| - 1;
      RestoresStopAt401(targets[..n], outcomes[..n], partial, rejected);
      var before := RestoreAll(targets[..n], outcomes[..n], partial, rejected);
      OutcomesOfPrefix(targets, outcomes, RestoreAll(targets, outcomes, partial, rejected).asked, before.asked, n, w,
                       own);
      PendingAreCreated(targets[..n], outcomes[..n], partial, rejected, w, own);
      CreatedStays(before.pending, targets[..n], targets, w, own);
      CreatedOne(before, targets, outcomes[n], n, w, own);
    }
  }

  lemma CreatedOne(p: Progress, targets: seq<Target>, o: Outcome, n: nat, w: World, own: set<string>)
    requires n < |targets| && forall x | x in p.pending :: IsCreatedTarget(x, targets, w, own)
    requires p.rejected.None? ==> OutcomeIsRight(o, w, targets[n].uri, own)
    ensures forall x | x in RestoreOne(p, targets[n], o).pending :: IsCreatedTarget(x, targets, w, own)
  {
    assert targets[n] in targets;
  }

  lemma OutcomesOfPrefix(targets: seq<Target>, outcomes: seq<Outcome>, asked: nat, asked': nat, n: nat, w: World,
                         own: set<string>)
    requires OutcomesAreRight(targets, outcomes, asked, w, own) && asked' <= asked && asked' <= n <= |targets|
    ensures OutcomesAreRight(targets[..n], outcomes[..n], asked', w, own)
  {
    assert forall i | 0 <= i < n :: outcomes[..n][i] == outcomes[i];
  }

  lemma CreatedStays(os: seq<CreatedObject>, some: seq<Target>, all: seq<Target>, w: World, own: set<string>)
    requires forall tg | tg in some :: tg in all
    requires forall o | o in os :: IsCreatedTarget(o, some, w, own)
    ensures forall o | o in os :: IsCreatedTarget(o, all, w, own)
  {
    forall o | o in os ensures IsCreatedTarget(o, all, w, own) {
      var tg :| tg in some && o == ObjectFor(tg) && tg.tadir && OutcomeIsRight(Created, w, tg.uri, own);
      assert tg in all;
    }
  }

  // ---------------------------------------------------------------------------
  // keepLocalOrigin
  // ---------------------------------------------------------------------------

  /** The system the request belongs to: the first three characters of its number. */
  function SystemOf(request: string): string { if |request| >= 3 then Upper(request[..3]) else "" }

  datatype Kept = Kept(local: seq<CreatedObject>, failed: seq<Entry>, created: seq<Entry>, rejected: Option<Error>,
                       asked: nat)

  function ObjectEntry(o: CreatedObject, reason: Reason): Entry { Entry(o.id, o.typ, o.name, reason) }

  function KeepOne(k: Kept, o: CreatedObject, sid: string, origin: Origin): Kept {
    if k.rejected.Some? then k.(failed := k.failed + [ObjectEntry(o, NotDeleted(k.rejected.value))])
    else
      var k := k.(asked := k.asked + 1);
      match origin
      case OriginFailed(err) =>
        if err.Unauthorized? then k.(failed := k.failed + [ObjectEntry(o, NotDeleted(err))], rejected := Some(err))
        else k.(created := k.created + [ObjectEntry(o, OriginUnread(err))])
      case System(src) =>
        if sid == "" || src != sid then k.(created := k.created + [ObjectEntry(o, OtherSystem(src))])
        else k.(local := k.local + [o])
  }

  function KeepAll(objs: seq<CreatedObject>, sid: string, origin: string -> Origin): Kept {
    if objs == [] then Kept([], [], [], None, 0) else
    var n := |objs| - 1;
    KeepOne(KeepAll(objs[..n], sid, origin), objs[n], sid, origin(objs[n].uri))
  }

  method KeepLocalOrigin(objs: seq<CreatedObject>, request: string, origin: string -> Origin, result: Result)
    returns (local: seq<CreatedObject>, asked: nat)
    modifies result
    ensures var k := KeepAll(objs, SystemOf(request), origin);
            && local == k.local && asked == k.asked
            && result.View() == old(result.View()).(failed := old(result.failed) + k.failed,
                                                    created := old(result.created) + k.created)
  {
    var sid := "";
    if |request| >= 3 {
      sid := Upper(request[..3]);
    }
    local, asked := [], 0;
    var rejected: Option<Error> := None;
    ghost var k := KeepAll([], sid, origin);
    for i := 0 to |objs|
      invariant k == KeepAll(objs[..i], sid, origin) && k.local == local && k.rejected == rejected && k.asked == asked
      invariant result.View() == WithKept(old(result.View()), k)
    {
      local, rejected, asked := KeepObject(objs[i], sid, origin, local, rejected, asked, k, old(result.View()), result);
      k := KeepOne(k, objs[i], sid, origin(objs[i].uri));
      assert objs[..i + 1][..i] == objs[..i];
    }
    assert objs[..|objs|] == objs;
  }

  /** The lists base with what k adds to them. */
  function WithKept(base: Lists, k: Kept): Lists {
    base.(failed := base.failed + k.failed, created := base.created + k.created)
  }

  /** One pass of the loop of keepLocalOrigin. */
  method KeepObject(o: CreatedObject, sid: string, origin: string -> Origin, local: seq<CreatedObject>,
                    rejected: Option<Error>, asked: nat, ghost k: Kept, ghost base: Lists, result: Result)
    returns (local': seq<CreatedObject>, rejected': Option<Error>, asked': nat)
    requires k.local == local && k.rejected == rejected && k.asked == asked && result.View() == WithKept(base, k)
    modifies result
    ensures var k' := KeepOne(k, o, sid, origin(o.uri));
            && k'.local == local' && k'.rejected == rejected' && k'.asked == asked'
            && result.View() == WithKept(base, k')
  {
    local', rejected', asked' := local, rejected, asked;
    if rejected.Some? {
      result.failed := result.failed + [ObjectEntry(o, NotDeleted(rejected.value))];
      return;
    }
    var answer := origin(o.uri);
    asked' := asked + 1;
    if answer.OriginFailed? && answer.err.Unauthorized? {
      rejected' := Some(answer.err);
      result.failed := result.failed + [ObjectEntry(o, NotDeleted(answer.err))];
    } else if answer.OriginFailed? {
      result.created := result.created + [ObjectEntry(o, OriginUnread(answer.err))];
    } else if sid == "" || answer.name != sid {
      result.created := result.created + [ObjectEntry(o, OtherSystem(answer.name))];
    } else {
      local' := local + [o];
    }
  }

  function KeptIds(k: Kept): multiset<Id> {
    multiset(ObjectIds(k.local)) + multiset(EntryIds(k.failed)) + multiset(EntryIds(k.created))
  }

  predicate AccountsFor(k: Kept, objs: seq<CreatedObject>) { KeptIds(k) == multiset(ObjectIds(objs)) }

  lemma KeepOneIds(k: Kept, o: CreatedObject, sid: string, origin: Origin)
    ensures KeptIds(KeepOne(k, o, sid, origin)) == KeptIds(k) + multiset{o.id}
  {
    if k.rejected.Some? {
      EntryIdsSnoc(k.failed, ObjectEntry(o, NotDeleted(k.rejected.value)));
    } else {
      match origin
      case OriginFailed(err) =>
        if err.Unauthorized? {
          EntryIdsSnoc(k.failed, ObjectEntry(o, NotDeleted(err)));
        } else {
          EntryIdsSnoc(k.created, ObjectEntry(o, OriginUnread(err)));
        }
      case System(src) =>
        EntryIdsSnoc(k.created, ObjectEntry(o, OtherSystem(src)));
        ObjectIdsSnoc(k.local, o);
    }
  }

  /** Each object is kept for deletion or reported, once. */
  lemma {:induction false} EachKeptOrReported(objs: seq<CreatedObject>, sid: string, origin: string -> Origin)
    ensures AccountsFor(KeepAll(objs, sid, origin), objs)
  {
    if objs != [] {
      var n := |objs| - 1;
      EachKeptOrReported(objs[..n], sid, origin);
      KeptOneMore(KeepAll(objs[..n], sid, origin), objs[..n], objs[n], sid, origin(objs[n].uri));
      assert objs == objs[..n] + [objs[n]];
    }
  }

  lemma KeptOneMore(k: Kept, objs: seq<CreatedObject>, o: CreatedObject, sid: string, origin: Origin)
    requires AccountsFor(k, objs)
    ensures AccountsFor(KeepOne(k, o, sid, origin), objs + [o])
  {
    KeepOneIds(k, o, sid, origin);
    ObjectIdsSnoc(objs, o);
  }

  /** Only objects of the request's own system are kept. */
  lemma {:induction false} KeptAreLocal(objs: seq<CreatedObject>, sid: string, origin: string -> Origin)
    ensures forall o | o in KeepAll(objs, sid, origin).local :: o in objs && sid != "" && origin(o.uri) == System(sid)
  {
    if objs != [] {
      var n := |objs| - 1;
      KeptAreLocal(objs[..n], sid, origin);
      assert objs == objs[..n] + [objs[n]];
    }
  }

  /** No origin is asked for after a 401. */
  lemma {:induction false} OriginsStopAt401(objs: seq<CreatedObject>, sid: string, origin: string -> Origin)
    ensures var k := KeepAll(objs, sid, origin);
            && k.asked <= |objs| && (k.rejected.None? ==> k.asked == |objs|)
            && (forall i {:trigger objs[i]} | 0 <= i < k.asked && origin(objs[i].uri) == OriginFailed(Unauthorized) ::
                  i == k.asked - 1 && k.rejected.Some?)
  {
    if objs != [] {
      var n := |objs| - 1;
      OriginsStopAt401(objs[..n], sid, origin);
      assert objs == objs[..n] + [objs[n]];
    }
  }

  /** Delete requests are sent exactly when some object was kept for deletion. */
  lemma {:induction false} DeletesExactly(local: seq<CreatedObject>, alive: set<string>, delete: DeleteAnswers)
    ensures DeleteRounds(local, [], alive, delete).log != [] <==> local != []
  {
    if local != [] {
      var r := DeleteRound(local, [], alive, delete);
      FirstAttempt(local, alive, delete);
      if r.rejected.None? && r.deleted != [] {
        LogGrows(r.next, r.log, r.alive, delete);
      }
    }
  }

  /** The j-th query is the first that is answered 401; the i-th object was confirmed before it. */
  predicate ConfirmedThen401(objs: seq<CreatedObject>, sid: string, origin: string -> Origin, i: nat, j: nat)
    requires i < j < |objs|
  {
    && origin(objs[i].uri) == System(sid) && origin(objs[j].uri) == OriginFailed(Unauthorized)
    && forall m {:trigger objs[m]} | 0 <= m < j :: origin(objs[m].uri) != OriginFailed(Unauthorized)
  }

  lemma {:induction false} FirstAttempt(pending: seq<CreatedObject>, alive: set<string>, delete: DeleteAnswers)
    ensures pending != [] ==> DeleteRound(pending, [], alive, delete).log != []
  {
    if |pending| > 1 {
      FirstAttempt(pending[..|pending| - 1], alive, delete);
    }
  }

  lemma {:induction false} LogGrows(pending: seq<CreatedObject>, log: seq<Attempt>, alive: set<string>,
                                    delete: DeleteAnswers)
    requires log != []
    ensures DeleteRounds(pending, log, alive, delete).log != []
    decreases |pending|
  {
    if pending != [] {
      RoundLogGrows(pending, log, alive, delete);
      var r := DeleteRound(pending, log, alive, delete);
      if r.rejected.None? && r.deleted != [] {
        LogGrows(r.next, r.log, r.alive, delete);
      }
    }
  }

  lemma {:induction false} RoundLogGrows(pending: seq<CreatedObject>, log: seq<Attempt>, alive: set<string>,
                                         delete: DeleteAnswers)
    requires log != []
    ensures DeleteRound(pending, log, alive, delete).log != []
  {
    if pending != [] {
      RoundLogGrows(pending[..|pending| - 1], log, alive, delete);
    }
  }

  /** Without a 401 the local objects are all confirmed ones; with one, those before it. */
  lemma {:induction false} KeepMeans(objs: seq<CreatedObject>, sid: string, origin: string -> Origin)
    ensures var k := KeepAll(objs, sid, origin);
            && (k.rejected.None?
                <==> forall m {:trigger objs[m]} | 0 <= m < |objs| :: origin(objs[m].uri) != OriginFailed(Unauthorized))
            && (k.rejected.None? ==>
                  (k.local != []
                   <==> sid != ""
                        && exists i {:trigger objs[i]} :: 0 <= i < |objs| && origin(objs[i].uri) == System(sid)))
            && (k.rejected.Some? ==>
                  (k.local != []
                   <==> sid != ""
                        && exists i, j :: 0 <= i < j < |objs| && ConfirmedThen401(objs, sid, origin, i, j)))
  {
    if objs != [] {
      var n := |objs| - 1;
      KeepMeans(objs[..n], sid, origin);
      KeepMeansStep(objs, n, sid, origin);
      var before := KeepAll(objs[..n], sid, origin);
      if before.rejected.Some? {
        var m :| 0 <= m < n && origin(objs[..n][m].uri) == OriginFailed(Unauthorized);
        assert objs[m] == objs[..n][m];
        assert before.local != [] ==> exists i, j :: 0 <= i < j < n && ConfirmedThen401(objs[..n], sid, origin, i, j);
      } else if origin(objs[n].uri) == OriginFailed(Unauthorized) && before.local != [] {
        var i :| 0 <= i < n && origin(objs[..n][i].uri) == System(sid);
        assert objs[i] == objs[..n][i];
        assert ConfirmedThen401(objs, sid, origin, i, n);
      }
    }
  }

  lemma KeepMeansStep(objs: seq<CreatedObject>, n: nat, sid: string, origin: string -> Origin)
    requires n == |objs| - 1
    ensures forall m | 0 <= m < n :: objs[..n][m] == objs[m]
    ensures forall i, j | 0 <= i < j < n ::
              ConfirmedThen401(objs[..n], sid, origin, i, j) == ConfirmedThen401(objs, sid, origin, i, j)
  {
    assert forall m | 0 <= m < n :: objs[..n][m] == objs[m];
  }

  // ---------------------------------------------------------------------------
  // The whole rollback
  // ---------------------------------------------------------------------------

  function Reported(objs: seq<CreatedObject>, reason: Reason): (es: seq<Entry>)
    ensures |es| == |objs| && forall i | 0 <= i < |es| :: es[i] == ObjectEntry(objs[i], reason)
    ensures EntryIds(es) == ObjectIds(objs)
  {
    seq(|objs|, i requires 0 <= i < |objs| => ObjectEntry(objs[i], reason))
  }

  /** What becomes of the objects found created. */
  function Settle(l: Lists, pending: seq<CreatedObject>, partial: bool, rejected: Option<Error>,
                  request: string, deleteCreated: bool, w: World): Lists
    requires Fresh(pending)
  {
    if pending == [] then l
    else if !deleteCreated then l.(created := l.created + Reported(pending, CreatedKept))
    else if rejected.Some? then l.(failed := l.failed + Reported(pending, NotDeleted(rejected.value)))
    else if l.failed != [] then l.(created := l.created + Reported(pending, CreatedRestoreErr))
    else if partial then l.(created := l.created + Reported(pending, CreatedSubObjects))
    else
      KeptAreLocal(pending, SystemOf(request), w.origin);
      var k := KeepAll(pending, SystemOf(request), w.origin);
      LeftAreExplained(k.local, [], Uris(k.local), w.delete);
      var r := DeleteRounds(k.local, [], Uris(k.local), w.delete);
      l.(created := l.created + k.created, deleted := l.deleted + r.deleted,
         failed := l.failed + k.failed + FailedEntries(r.next, r.rejected))
  }

  /** The objects found created are taken to the deletion. */
  predicate GateOpen(l: Lists, pending: seq<CreatedObject>, partial: bool, rejected: Option<Error>,
                     deleteCreated: bool)
  {
    pending != [] && deleteCreated && rejected.None? && l.failed == [] && !partial
  }

  method CreatedEntries(objs: seq<CreatedObject>, reason: Reason) returns (entries: seq<Entry>)
    ensures entries == Reported(objs, reason)
  {
    entries := [];
    for i := 0 to |objs|
      invariant entries == Reported(objs, reason)[..i]
    {
      entries := entries + [ObjectEntry(objs[i], reason)];
    }
  }

  method SettleCreated(w: World, pending: seq<CreatedObject>, partial: bool, rejected: Option<Error>,
                       request: string, deleteCreated: bool, result: Result)
    returns (origins: nat, log: seq<Attempt>)
    requires Fresh(pending)
    modifies result
    ensures result.View() == Settle(old(result.View()), pending, partial, rejected, request, deleteCreated, w)
    ensures var k := KeepAll(pending, SystemOf(request), w.origin);
            if GateOpen(old(result.View()), pending, partial, rejected, deleteCreated)
            then origins == k.asked && log == DeleteRounds(k.local, [], Uris(k.local), w.delete).log
            else origins == 0 && log == []
  {
    origins, log := 0, [];
    if |pending| == 0 {
    } else if !deleteCreated {
      var entries := CreatedEntries(pending, CreatedKept);
      result.created := result.created + entries;
    } else if rejected.Some? {
      var entries := CreatedEntries(pending, NotDeleted(rejected.value));
      result.failed := result.failed + entries;
    } else if |result.failed| > 0 {
      var entries := CreatedEntries(pending, CreatedRestoreErr);
      result.created := result.created + entries;
    } else if partial {
      var entries := CreatedEntries(pending, CreatedSubObjects);
      result.created := result.created + entries;
    } else {
      var local;
      local, origins := KeepLocalOrigin(pending, request, w.origin, result);
      KeptAreLocal(pending, SystemOf(request), w.origin);
      log := DeleteCreatedObjects(local, Uris(local), w.delete, result);
    }
  }

  lemma ReportedIds(l: seq<Entry>, objs: seq<CreatedObject>, reason: Reason)
    ensures Bag(l + Reported(objs, reason)) == Bag(l) + multiset(ObjectIds(objs))
  {
    BagAppend(l, Reported(objs, reason));
  }

  lemma FailedEntriesIds(os: seq<CreatedObject>, rejected: Option<Error>)
    requires AllExplained(os, rejected)
    ensures Bag(FailedEntries(os, rejected)) == multiset(ObjectIds(os))
  {
    assert EntryIds(FailedEntries(os, rejected)) == ObjectIds(os);
  }

  /** What deletion adds to the failed, created and deleted lists accounts for every pending object. */
  lemma DeletionKeepsIds(failed: seq<Entry>, created: seq<Entry>, deleted: seq<Entry>, pending: seq<CreatedObject>,
                         sid: string, w: World)
    requires Fresh(KeepAll(pending, sid, w.origin).local)
    ensures var k := KeepAll(pending, sid, w.origin);
            var r := DeleteRounds(k.local, [], Uris(k.local), w.delete);
            && AllExplained(r.next, r.rejected)
            && Bag(failed + k.failed + FailedEntries(r.next, r.rejected)) + Bag(created + k.created)
               + Bag(deleted + r.deleted)
               == Bag(failed) + Bag(created) + Bag(deleted) + multiset(ObjectIds(pending))
  {
    var k := KeepAll(pending, sid, w.origin);
    LeftAreExplained(k.local, [], Uris(k.local), w.delete);
    var r := DeleteRounds(k.local, [], Uris(k.local), w.delete);
    BagAppend(failed + k.failed, FailedEntries(r.next, r.rejected));
    BagAppend(failed, k.failed);
    BagAppend(created, k.created);
    BagAppend(deleted, r.deleted);
    FailedEntriesIds(r.next, r.rejected);
    EachKeptOrReported(pending, sid, w.origin);
    EachDeletedOrLeft(k.local, [], Uris(k.local), w.delete);
    RegroupDeletion(Bag(failed), Bag(created), Bag(deleted), Bag(k.failed), Bag(k.created),
                    multiset(ObjectIds(k.local)), multiset(ObjectIds(r.next)), Bag(r.deleted),
                    multiset(ObjectIds(pending)));
  }

  lemma RegroupDeletion<T>(f: multiset<T>, c: multiset<T>, d: multiset<T>, kf: multiset<T>, kc: multiset<T>,
                           local: multiset<T>, left: multiset<T>, rd: multiset<T>, pending: multiset<T>)
    requires local + kf + kc == pending && left + rd == local
    ensures (f + kf + left) + (c + kc) + (d + rd) == f + c + d + pending
  {
    assert left + rd + kf + kc == pending;
  }

  lemma CreatedReported(l: Lists, objs: seq<CreatedObject>, reason: Reason)
    ensures AllIds(l.(created := l.created + Reported(objs, reason))) == AllIds(l) + multiset(ObjectIds(objs))
  {
    ReportedIds(l.created, objs, reason);
  }

  lemma FailedReported(l: Lists, objs: seq<CreatedObject>, reason: Reason)
    ensures AllIds(l.(failed := l.failed + Reported(objs, reason))) == AllIds(l) + multiset(ObjectIds(objs))
  {
    ReportedIds(l.failed, objs, reason);
  }

  lemma DeletionReported(l: Lists, pending: seq<CreatedObject>, failed: seq<Entry>, created: seq<Entry>,
                         deleted: seq<Entry>)
    requires Bag(failed) + Bag(created) + Bag(deleted)
             == Bag(l.failed) + Bag(l.created) + Bag(l.deleted) + multiset(ObjectIds(pending))
    ensures AllIds(l.(failed := failed, created := created, deleted := deleted))
            == AllIds(l) + multiset(ObjectIds(pending))
  {
    RegroupFive(Bag(l.restored), Bag(l.skipped), Bag(l.failed), Bag(l.created), Bag(l.deleted),
                Bag(failed), Bag(created), Bag(deleted), multiset(ObjectIds(pending)));
  }

  lemma RegroupFive<T>(r: multiset<T>, s: multiset<T>, f: multiset<T>, c: multiset<T>, d: multiset<T>,
                       f': multiset<T>, c': multiset<T>, d': multiset<T>, pending: multiset<T>)
    requires f' + c' + d' == f + c + d + pending
    ensures r + s + f' + c' + d' == r + s + f + c + d + pending
  {
    assert r + s + f' + c' + d' == r + s + (f' + c' + d');
  }

  /** Settling reports every object found created, once. */
  lemma SettleKeepsIds(l: Lists, pending: seq<CreatedObject>, partial: bool, rejected: Option<Error>,
                       request: string, deleteCreated: bool, w: World)
    requires Fresh(pending)
    ensures AllIds(Settle(l, pending, partial, rejected, request, deleteCreated, w))
            == AllIds(l) + multiset(ObjectIds(pending))
  {
    if pending == [] {
      assert ObjectIds(pending) == [];
    } else if !deleteCreated {
      CreatedReported(l, pending, CreatedKept);
    } else if rejected.Some? {
      FailedReported(l, pending, NotDeleted(rejected.value));
    } else if l.failed != [] {
      CreatedReported(l, pending, CreatedRestoreErr);
    } else if partial {
      CreatedReported(l, pending, CreatedSubObjects);
    } else {
      DeletionSettles(l, pending, request, w);
    }
  }

  lemma DeletionSettles(l: Lists, pending: seq<CreatedObject>, request: string, w: World)
    requires Fresh(pending) && pending != [] && l.failed == []
    ensures AllIds(Settle(l, pending, false, None, request, true, w)) == AllIds(l) + multiset(ObjectIds(pending))
  {
    var sid := SystemOf(request);
    KeptAreLocal(pending, sid, w.origin);
    DeletionKeepsIds(l.failed, l.created, l.deleted, pending, sid, w);
    var l' := Settle(l, pending, false, None, request, true, w);
    DeletionReported(l, pending, l'.failed, l'.created, l'.deleted);
  }

  /** The object lies wholly in the transport, and comes from the request's own system. */
  predicate MayBeDeleted(w: World, tg: Target, own: set<string>, request: string) {
    && tg.tadir
    && w.history(tg.uri).Versions? && w.history(tg.uri).versions != [] && AllInside(w.history(tg.uri).versions, own)
    && |request| >= 3 && w.origin(tg.uri) == System(Upper(request[..3]))
  }

  predicate SameObject(o: CreatedObject, id: Id, typ: string, name: string) {
    o.id == id && o.typ == typ && o.name == name
  }

  /** Some object of os is this one. */
  ghost predicate IsOneOf(os: seq<CreatedObject>, id: Id, typ: string, name: string) {
    exists i :: 0 <= i < |os| && SameObject(os[i], id, typ, name)
  }

  ghost predicate EntriesAreOf(es: seq<Entry>, os: seq<CreatedObject>) {
    forall i {:trigger es[i]} | 0 <= i < |es| :: IsOneOf(os, es[i].id, es[i].typ, es[i].name)
  }

  ghost predicate ObjectsAreOf(some: seq<CreatedObject>, os: seq<CreatedObject>) {
    forall i {:trigger some[i]} | 0 <= i < |some| :: IsOneOf(os, some[i].id, some[i].typ, some[i].name)
  }

  lemma {:induction false} RoundIsOfPending(pending: seq<CreatedObject>, log: seq<Attempt>, alive: set<string>,
                                            delete: DeleteAnswers)
    ensures var r := DeleteRound(pending, log, alive, delete);
            EntriesAreOf(r.deleted, pending) && ObjectsAreOf(r.next, pending)
  {
    if pending != [] {
      var n := |pending| - 1;
      RoundIsOfPending(pending[..n], log, alive, delete);
      var r := DeleteRound(pending[..n], log, alive, delete);
      ObjectsStay(r.next, pending, n);
      EntriesStay(r.deleted, pending, n);
      assert SameObject(pending[n], pending[n].id, pending[n].typ, pending[n].name);
    }
  }

  lemma ObjectsStay(some: seq<CreatedObject>, os: seq<CreatedObject>, n: nat)
    requires n <= |os| && ObjectsAreOf(some, os[..n])
    ensures ObjectsAreOf(some, os)
  {
    forall i {:trigger some[i]} | 0 <= i < |some| ensures IsOneOf(os, some[i].id, some[i].typ, some[i].name) {
      var j :| 0 <= j < n && SameObject(os[..n][j], some[i].id, some[i].typ, some[i].name);
      assert SameObject(os[j], some[i].id, some[i].typ, some[i].name);
    }
  }

  lemma EntriesStay(es: seq<Entry>, os: seq<CreatedObject>, n: nat)
    requires n <= |os| && EntriesAreOf(es, os[..n])
    ensures EntriesAreOf(es, os)
  {
    forall i {:trigger es[i]} | 0 <= i < |es| ensures IsOneOf(os, es[i].id, es[i].typ, es[i].name) {
      var j :| 0 <= j < n && SameObject(os[..n][j], es[i].id, es[i].typ, es[i].name);
      assert SameObject(os[j], es[i].id, es[i].typ, es[i].name);
    }
  }

  lemma EntriesOfObjectsOf(es: seq<Entry>, some: seq<CreatedObject>, os: seq<CreatedObject>)
    requires EntriesAreOf(es, some) && ObjectsAreOf(some, os)
    ensures EntriesAreOf(es, os)
  {
    forall i {:trigger es[i]} | 0 <= i < |es| ensures IsOneOf(os, es[i].id, es[i].typ, es[i].name) {
      var j :| 0 <= j < |some| && SameObject(some[j], es[i].id, es[i].typ, es[i].name);
      assert some[j].id == es[i].id;
    }
  }

  lemma {:induction false} DeletedWerePending(pending: seq<CreatedObject>, log: seq<Attempt>, alive: set<string>,
                                              delete: DeleteAnswers)
    ensures EntriesAreOf(DeleteRounds(pending, log, alive, delete).deleted, pending)
    decreases |pending|
  {
    if pending != [] {
      RoundIsOfPending(pending, log, alive, delete);
      var r := DeleteRound(pending, log, alive, delete);
      if r.rejected.None? && r.deleted != [] {
        DeletedWerePending(r.next, r.log, r.alive, delete);
        EntriesOfObjectsOf(DeleteRounds(r.next, r.log, r.alive, delete).deleted, r.next, pending);
      }
    }
  }

  /** The deletion gate: something new is in Deleted only if the option was on, nothing had failed
      and nothing was partial when deletion began; and then it is a TADIR object whose non-empty
      history lies wholly in the transport and whose source system is the request's. */
  ghost predicate GateHeld(before: Lists, after: Lists, partial: bool, deleteCreated: bool, targets: seq<Target>,
                           w: World, own: set<string>, request: string) {
    after.deleted == before.deleted ||
    (&& deleteCreated && before.failed == [] && !partial
     && before.deleted <= after.deleted
     && forall i {:trigger after.deleted[i]} | |before.deleted| <= i < |after.deleted| ::
          IsSafe(after.deleted[i], targets, w, own, request))
  }

  ghost predicate IsSafe(e: Entry, targets: seq<Target>, w: World, own: set<string>, request: string) {
    exists tg ::
      tg in targets && e.id == UnitOf(tg.uri) && e.typ == tg.typ && e.name == tg.name
      && MayBeDeleted(w, tg, own, request)
  }

  lemma SettleHoldsGate(l: Lists, pending: seq<CreatedObject>, partial: bool, rejected: Option<Error>,
                        request: string, deleteCreated: bool, w: World, targets: seq<Target>, own: set<string>)
    requires Fresh(pending) && forall o | o in pending :: IsCreatedTarget(o, targets, w, own)
    ensures GateHeld(l, Settle(l, pending, partial, rejected, request, deleteCreated, w), partial, deleteCreated,
                     targets, w, own, request)
  {
    if pending != [] && deleteCreated && rejected.None? && l.failed == [] && !partial {
      var k := KeepAll(pending, SystemOf(request), w.origin);
      KeptAreLocal(pending, SystemOf(request), w.origin);
      var deleted := DeleteRounds(k.local, [], Uris(k.local), w.delete).deleted;
      DeletedWerePending(k.local, [], Uris(k.local), w.delete);
      forall i | 0 <= i < |deleted| ensures IsSafe(deleted[i], targets, w, own, request) {
        var j :| 0 <= j < |k.local| && SameObject(k.local[j], deleted[i].id, deleted[i].typ, deleted[i].name);
        LocalIsSafe(k.local[j], deleted[i], targets, w, own, request);
      }
    }
  }

  lemma LocalIsSafe(o: CreatedObject, e: Entry, targets: seq<Target>, w: World, own: set<string>, request: string)
    requires IsCreatedTarget(o, targets, w, own) && SameObject(o, e.id, e.typ, e.name)
    requires SystemOf(request) != "" && w.origin(o.uri) == System(SystemOf(request))
    ensures IsSafe(e, targets, w, own, request)
  {
    var tg :| tg in targets && o == ObjectFor(tg) && tg.tadir && OutcomeIsRight(Created, w, tg.uri, own);
    assert MayBeDeleted(w, tg, own, request);
  }

  // ---------------------------------------------------------------------------
  // Requests after a 401
  // ---------------------------------------------------------------------------

  /** For each request of one phase, in order, whether it was answered 401; a restore is one step. */
  function LookupFlags(asked: seq<nat>, lookup: nat -> Lookup): (fs: seq<bool>)
    ensures |fs| == |asked|
            && forall i {:trigger fs[i]} | 0 <= i < |fs| :: fs[i] == (lookup(asked[i]) == LookupFailed(Unauthorized))
  {
    seq(|asked|, i requires 0 <= i < |asked| => lookup(asked[i]) == LookupFailed(Unauthorized))
  }

  function RestoreFlags(outcomes: seq<Outcome>): (fs: seq<bool>)
    ensures |fs| == |outcomes|
            && forall i {:trigger fs[i]} | 0 <= i < |fs| :: fs[i] == (outcomes[i] == RestoreFailed(Unauthorized))
  {
    seq(|outcomes|, i requires 0 <= i < |outcomes| => outcomes[i] == RestoreFailed(Unauthorized))
  }

  function OriginFlags(objs: seq<CreatedObject>, origin: string -> Origin): (fs: seq<bool>)
    ensures |fs| == |objs|
            && forall i {:trigger fs[i]} | 0 <= i < |fs| :: fs[i] == (origin(objs[i].uri) == OriginFailed(Unauthorized))
  {
    seq(|objs|, i requires 0 <= i < |objs| => origin(objs[i].uri) == OriginFailed(Unauthorized))
  }

  function DeleteFlags(log: seq<Attempt>): (fs: seq<bool>)
    ensures |fs| == |log| && forall i {:trigger fs[i]} | 0 <= i < |fs| :: fs[i] == (log[i].err == Some(Unauthorized))
  {
    seq(|log|, i requires 0 <= i < |log| => log[i].err == Some(Unauthorized))
  }

  /** The flags of origin queries and delete requests. */
  function DeletionTrace(pending: seq<CreatedObject>, sid: string, w: World): seq<bool> {
    var k := KeepAll(pending, sid, w.origin);
    OriginFlags(Take(pending, k.asked), w.origin) + DeleteFlags(DeleteRounds(k.local, [], Uris(k.local), w.delete).log)
  }

  /** The flags of every request once the objects of the transport and its tasks are known. */
  function ObjectsTrace(objects: seq<TransportObject>, outcomes: seq<Outcome>, request: string, deleteCreated: bool,
                        w: World): seq<bool>
    requires |outcomes| == |Resolve(objects, w.lookup).targets|
  {
    var r := Resolve(objects, w.lookup);
    var p := RestoreAll(r.targets, outcomes, r.partial, r.rejected);
    LookupFlags(r.asked, w.lookup) + RestoreFlags(Take(outcomes, p.asked))
    + (if GateOpen(With(AfterLookups(r), p), p.pending, p.partial, p.rejected, deleteCreated)
       then DeletionTrace(p.pending, SystemOf(request), w) else [])
  }

  /** Some request follows one that was answered 401. */
  predicate GoesOnAfter401(trace: seq<bool>) { exists i :: 0 <= i < |trace| - 1 && trace[i] }

  /** Only the last request can have been answered 401, and only if that is known. */
  predicate EndsAt401(trace: seq<bool>, rejected: bool) {
    forall i {:trigger trace[i]} | 0 <= i < |trace| && trace[i] :: i == |trace| - 1 && rejected
  }

  lemma EndsIsEnd(trace: seq<bool>, rejected: bool)
    requires EndsAt401(trace, rejected)
    ensures !GoesOnAfter401(trace)
  {}

  /** Phases without a 401 before one that ends at it. */
  lemma QuietBefore(quiet: seq<bool>, trace: seq<bool>)
    requires EndsAt401(quiet, false)
    ensures GoesOnAfter401(quiet + trace) <==> GoesOnAfter401(trace)
  {
    var n, all := |quiet|, quiet + trace;
    assert forall i | 0 <= i < n :: all[i] == quiet[i];
    if i :| 0 <= i < |trace| - 1 && trace[i] {
      assert all[n + i];
    }
    if i :| 0 <= i < |all| - 1 && all[i] {
      assert trace[i - n];
    }
  }

  /** A phase that ends at its 401, and one behind it. */
  lemma LoudBefore(loud: seq<bool>, trace: seq<bool>)
    requires loud != [] && loud[|loud| - 1] && EndsAt401(loud, true)
    ensures GoesOnAfter401(loud + trace) <==> trace != []
  {
    var n, all := |loud|, loud + trace;
    assert forall i | 0 <= i < n :: all[i] == loud[i];
    if trace != [] {
      assert all[n - 1];
    }
  }

  lemma {:induction false} LookupsEnd(objects: seq<TransportObject>, lookup: nat -> Lookup)
    ensures var r := Resolve(objects, lookup); EndsAt401(LookupFlags(r.asked, lookup), r.rejected.Some?)
  {
    LookupsStopAt401(objects, lookup);
  }

  lemma {:induction false} RestoresEnd(targets: seq<Target>, outcomes: seq<Outcome>, partial: bool,
                                       rejected: Option<Error>)
    requires |outcomes| == |targets|
    ensures var p := RestoreAll(targets, outcomes, partial, rejected);
            && EndsAt401(RestoreFlags(Take(outcomes, p.asked)), p.rejected.Some?)
            && (rejected.Some? ==> RestoreFlags(Take(outcomes, p.asked)) == [] && p.rejected.Some?)
  {
    RestoresStopAt401(targets, outcomes, partial, rejected);
    var p := RestoreAll(targets, outcomes, partial, rejected);
    assert Take(outcomes, p.asked) == outcomes[..p.asked];
  }

  lemma {:induction false} OriginsEnd(objs: seq<CreatedObject>, sid: string, origin: string -> Origin)
    ensures var k := KeepAll(objs, sid, origin);
            var fs := OriginFlags(Take(objs, k.asked), origin);
            EndsAt401(fs, k.rejected.Some?) && (k.rejected.Some? ==> fs != [] && fs[|fs| - 1])
  {
    OriginsStopAt401(objs, sid, origin);
    LastOriginIs401(objs, sid, origin);
    var k := KeepAll(objs, sid, origin);
    assert Take(objs, k.asked) == objs[..k.asked];
  }

  lemma {:induction false} LastOriginIs401(objs: seq<CreatedObject>, sid: string, origin: string -> Origin)
    ensures var k := KeepAll(objs, sid, origin);
            k.rejected.Some? ==> 0 < k.asked <= |objs| && origin(objs[k.asked - 1].uri) == OriginFailed(Unauthorized)
  {
    if objs != [] {
      OriginsStopAt401(objs[..|objs| - 1], sid, origin);
      LastOriginIs401(objs[..|objs| - 1], sid, origin);
    }
  }

  lemma {:induction false} DeletesEnd(local: seq<CreatedObject>, alive: set<string>, delete: DeleteAnswers)
    ensures var r := DeleteRounds(local, [], alive, delete); EndsAt401(DeleteFlags(r.log), r.rejected.Some?)
  {
    RequestsAreBounded(local, [], alive, delete);
  }

  /** From the origin check on. */
  lemma {:induction false} DeletionGoesOnExactly(pending: seq<CreatedObject>, sid: string, w: World)
    ensures GoesOnAfter401(DeletionTrace(pending, sid, w)) <==>
            sid != "" && exists i, j :: 0 <= i < j < |pending| && ConfirmedThen401(pending, sid, w.origin, i, j)
  {
    var k := KeepAll(pending, sid, w.origin);
    var r := DeleteRounds(k.local, [], Uris(k.local), w.delete);
    var origins, deletes := OriginFlags(Take(pending, k.asked), w.origin), DeleteFlags(r.log);
    OriginsEnd(pending, sid, w.origin);
    DeletesEnd(k.local, Uris(k.local), w.delete);
    DeletesExactly(k.local, Uris(k.local), w.delete);
    KeepMeans(pending, sid, w.origin);
    if k.rejected.Some? {
      LoudBefore(origins, deletes);
    } else {
      QuietBefore(origins, deletes);
      EndsIsEnd(deletes, r.rejected.Some?);
      NoneConfirmed(pending, sid, w.origin);
    }
  }

  lemma NoneConfirmed(objs: seq<CreatedObject>, sid: string, origin: string -> Origin)
    requires forall m {:trigger objs[m]} | 0 <= m < |objs| :: origin(objs[m].uri) != OriginFailed(Unauthorized)
    ensures !exists i, j :: 0 <= i < j < |objs| && ConfirmedThen401(objs, sid, origin, i, j)
  {}

  /** The documentation promises that nothing is sent after a 401. Over a whole rollback, with each
      restore as one step, the promise is broken exactly when the objects found created are taken to the
      deletion, one of them is confirmed to be of the request's system, and the origin of a later one is
      answered 401: the deletion goes on with the confirmed ones. */
  lemma {:induction false} GoesOnAfter401Exactly(objects: seq<TransportObject>, outcomes: seq<Outcome>, request: string,
                                                 deleteCreated: bool, w: World)
    requires |outcomes| == |Resolve(objects, w.lookup).targets|
    ensures var r := Resolve(objects, w.lookup);
            var p := RestoreAll(r.targets, outcomes, r.partial, r.rejected);
            GoesOnAfter401([false, false] + ObjectsTrace(objects, outcomes, request, deleteCreated, w)) <==>
            && GateOpen(With(AfterLookups(r), p), p.pending, p.partial, p.rejected, deleteCreated)
            && SystemOf(request) != ""
            && exists i, j :: 0 <= i < j < |p.pending| && ConfirmedThen401(p.pending, SystemOf(request), w.origin, i, j)
  {
    var r := Resolve(objects, w.lookup);
    var p := RestoreAll(r.targets, outcomes, r.partial, r.rejected);
    var lookups, restores := LookupFlags(r.asked, w.lookup), RestoreFlags(Take(outcomes, p.asked));
    var open := GateOpen(With(AfterLookups(r), p), p.pending, p.partial, p.rejected, deleteCreated);
    var deletion := if open then DeletionTrace(p.pending, SystemOf(request), w) else [];
    LookupsEnd(objects, w.lookup);
    RestoresEnd(r.targets, outcomes, r.partial, r.rejected);
    QuietBefore([false, false], lookups + restores + deletion);
    if open {
      DeletionGoesOnExactly(p.pending, SystemOf(request), w);
    }
    PhasesGoOn(lookups, restores, deletion, r.rejected.Some?, p.rejected.Some?);
  }

  lemma PhasesGoOn(lookups: seq<bool>, restores: seq<bool>, deletion: seq<bool>, early: bool, late: bool)
    requires EndsAt401(lookups, early) && EndsAt401(restores, late)
    requires (early ==> restores == [] && late) && (late ==> deletion == [])
    ensures GoesOnAfter401(lookups + restores + deletion) <==> GoesOnAfter401(deletion)
  {
    if late {
      assert lookups + restores + [] == lookups + restores;
      if early {
        assert lookups + [] == lookups;
        EndsIsEnd(lookups, true);
      } else {
        QuietBefore(lookups, restores);
        EndsIsEnd(restores, true);
      }
    } else {
      assert lookups + restores + deletion == lookups + (restores + deletion);
      QuietBefore(lookups, restores + deletion);
      QuietBefore(restores, deletion);
    }
  }

  /** A rollback that does: two classes the transport created, the first confirmed to be of the
      request's system DEV, the origin of the second answered 401. The first is deleted afterwards. */
  lemma {:induction false} DeleteFollowsA401(w: World, request: string, objects: seq<TransportObject>,
                                             outcomes: seq<Outcome>)
    requires request == "DEVK900001" && outcomes == [Created, Created]
    requires objects == [TransportObject("R3TR", "CLAS", "A"), TransportObject("R3TR", "CLAS", "B")]
    requires w.lookup(0) == Resolved(Target("CLAS", "A", "a", true))
             && w.lookup(1) == Resolved(Target("CLAS", "B", "b", true))
    requires w.history("a") == Versions([Version(request, "", "a1")])
             && w.history("b") == Versions([Version(request, "", "b1")])
    requires w.origin("a") == System("DEV") && w.origin("b") == OriginFailed(Unauthorized)
    ensures |outcomes| == |Resolve(objects, w.lookup).targets|
    ensures OutcomesAreRight(Resolve(objects, w.lookup).targets, outcomes, 2, w, Folded([request]))
    ensures GoesOnAfter401([false, false] + ObjectsTrace(objects, outcomes, request, true, w))
  {
    var a, b := Target("CLAS", "A", "a", true), Target("CLAS", "B", "b", true);
    assert Lower("a") == "a" && Lower("b") == "b" && "a"[0] != "b"[0];
    assert "R3TR"[0] != CORR[0];
    SystemIsDev(request);
    OwnIsInside(request, "a1");
    OwnIsInside(request, "b1");
    TwoCreatedGoOn(w, request, objects, outcomes, a, b);
  }

  lemma {:induction false} TwoCreatedGoOn(w: World, request: string, objects: seq<TransportObject>,
                                          outcomes: seq<Outcome>, a: Target, b: Target)
    requires |objects| == 2 && objects[0].pgmid != CORR && objects[1].pgmid != CORR && outcomes == [Created, Created]
    requires w.lookup(0) == Resolved(a) && w.lookup(1) == Resolved(b) && a.tadir && b.tadir
             && UnitOf(a.uri) != UnitOf(b.uri)
    requires IsOwn(w, a.uri, Folded([request])) && IsOwn(w, b.uri, Folded([request]))
    requires w.origin(a.uri) == System("DEV") && w.origin(b.uri) == OriginFailed(Unauthorized)
             && SystemOf(request) == "DEV"
    ensures |outcomes| == |Resolve(objects, w.lookup).targets|
    ensures OutcomesAreRight(Resolve(objects, w.lookup).targets, outcomes, 2, w, Folded([request]))
    ensures GoesOnAfter401([false, false] + ObjectsTrace(objects, outcomes, request, true, w))
  {
    var r := Resolution([a, b], [], [], false, None, [0, 1]);
    var p := Progress([], [], [], [ObjectFor(a), ObjectFor(b)], false, None, 2);
    ResolvesBoth(w.lookup, objects, a, b);
    BothCreated([a, b], outcomes);
    BothRight([a, b], outcomes, w, Folded([request]));
    FirstConfirmed(p.pending, w.origin);
    GoesOnWith(objects, outcomes, request, w, r, p);
  }

  predicate IsOwn(w: World, uri: string, own: set<string>) {
    w.history(uri).Versions? && w.history(uri).versions != [] && AllInside(w.history(uri).versions, own)
  }

  lemma BothRight(targets: seq<Target>, outcomes: seq<Outcome>, w: World, own: set<string>)
    requires |targets| == 2 && outcomes == [Created, Created] && IsOwn(w, targets[0].uri, own)
             && IsOwn(w, targets[1].uri, own)
    ensures OutcomesAreRight(targets, outcomes, 2, w, own)
  {
    assert OutcomeIsRight(outcomes[0], w, targets[0].uri, own) && OutcomeIsRight(outcomes[1], w, targets[1].uri, own);
  }

  /** Lookups and restores without a failure, and a confirmed object before a rejected one. */
  lemma {:induction false} GoesOnWith(objects: seq<TransportObject>, outcomes: seq<Outcome>, request: string, w: World,
                                      r: Resolution, p: Progress)
    requires r == Resolve(objects, w.lookup) && |outcomes| == |r.targets| && r.failed == [] && p.failed == []
    requires p == RestoreAll(r.targets, outcomes, r.partial, r.rejected) && p.rejected.None? && !p.partial
    requires SystemOf(request) == "DEV"
    requires exists i, j :: 0 <= i < j < |p.pending| && ConfirmedThen401(p.pending, "DEV", w.origin, i, j)
    ensures GoesOnAfter401([false, false] + ObjectsTrace(objects, outcomes, request, true, w))
  {
    GoesOnAfter401Exactly(objects, outcomes, request, true, w);
  }

  lemma OwnIsInside(request: string, version: string)
    ensures AllInside([Version(request, "", version)], Folded([request]))
  {
    assert Upper(request) == Upper([request][0]);
  }

  lemma FirstConfirmed(objs: seq<CreatedObject>, origin: string -> Origin)
    requires |objs| == 2 && origin(objs[0].uri) == System("DEV") && origin(objs[1].uri) == OriginFailed(Unauthorized)
    ensures exists i, j :: 0 <= i < j < |objs| && ConfirmedThen401(objs, "DEV", origin, i, j)
  {
    assert ConfirmedThen401(objs, "DEV", origin, 0, 1);
  }

  lemma SystemIsDev(request: string)
    requires request == "DEVK900001"
    ensures SystemOf(request) == "DEV"
  {
    assert request[..3] == "DEV" && "DEV"[1..] == "EV" && "EV"[1..] == "V" && "V"[1..] == "";
  }

  lemma {:induction false} ResolvesBoth(lookup: nat -> Lookup, objects: seq<TransportObject>, a: Target, b: Target)
    requires |objects| == 2 && objects[0].pgmid != CORR && objects[1].pgmid != CORR
    requires lookup(0) == Resolved(a) && lookup(1) == Resolved(b) && UnitOf(a.uri) != UnitOf(b.uri)
    ensures Resolve(objects, lookup) == Resolution([a, b], [], [], false, None, [0, 1])
  {
    assert Resolve(objects[..1][..0], lookup) == Resolution([], [], [], false, None, []);
    assert objects[..1][0] == objects[0];
    assert Resolve(objects[..1], lookup) == Resolution([a], [], [], false, None, [0]);
    assert TargetIds([a]) == [UnitOf(a.uri)] && UnitOf(b.uri) !in TargetIds([a]);
  }

  lemma {:induction false} BothCreated(targets: seq<Target>, outcomes: seq<Outcome>)
    requires |targets| == 2 && targets[0].tadir && targets[1].tadir && outcomes == [Created, Created]
    ensures RestoreAll(targets, outcomes, false, None)
            == Progress([], [], [], [ObjectFor(targets[0]), ObjectFor(targets[1])], false, None, 2)
  {
    assert RestoreAll(targets[..1][..0], outcomes[..1][..0], false, None) == Progress([], [], [], [], false, None, 0);
    assert targets[..1][0] == targets[0] && outcomes[..1][0] == Created;
    assert RestoreAll(targets[..1], outcomes[..1], false, None)
           == Progress([], [], [], [ObjectFor(targets[0])], false, None, 1);
  }

  /** The lists when the restores begin. */
  function AfterLookups(r: Resolution): Lists { Lists([], r.skipped, r.failed, [], []) }

  /** Lookups, restores and settling, taken together, account for every transport entry. */
  lemma RollbackAccounts(objects: seq<TransportObject>, outcomes: seq<Outcome>, request: string, deleteCreated: bool,
                         w: World)
    requires |outcomes| == |Resolve(objects, w.lookup).targets|
    ensures var r := Resolve(objects, w.lookup);
            var p := RestoreAll(r.targets, outcomes, r.partial, r.rejected);
            && Fresh(p.pending)
            && AllIds(Settle(With(AfterLookups(r), p), p.pending, p.partial, p.rejected, request, deleteCreated, w))
               == multiset(ToReport(objects, w.lookup))
  {
    var r := Resolve(objects, w.lookup);
    var p := RestoreAll(r.targets, outcomes, r.partial, r.rejected);
    PendingIsFresh(r.targets, outcomes, r.partial, r.rejected);
    SettleKeepsIds(With(AfterLookups(r), p), p.pending, p.partial, p.rejected, request, deleteCreated, w);
    ResolutionIsComplete(objects, w.lookup);
    EachTargetOnce(r.targets, outcomes, r.partial, r.rejected);
    WithIds(r, p);
  }

  lemma WithIds(r: Resolution, p: Progress)
    requires Accounted(p, r.targets)
    ensures AllIds(With(AfterLookups(r), p)) + multiset(ObjectIds(p.pending)) == ResolutionIds(r)
  {
    BagAppend(r.failed, p.failed);
    assert [] + p.restored == p.restored && [] + p.created == p.created;
    RegroupAll(Bag(p.restored), Bag(r.skipped), Bag(r.failed), Bag(p.failed), Bag(p.created),
               multiset(ObjectIds(p.pending)), multiset(TargetIds(r.targets)));
  }

  lemma RegroupAll<T>(restored: multiset<T>, skipped: multiset<T>, rf: multiset<T>, pf: multiset<T>,
                      created: multiset<T>, pending: multiset<T>, targets: multiset<T>)
    requires restored + pf + created + pending == targets
    ensures restored + skipped + (rf + pf) + created + multiset{} + pending == targets + skipped + rf
  {}

  lemma {:induction false} PendingIsFresh(targets: seq<Target>, outcomes: seq<Outcome>, partial: bool,
                                          rejected: Option<Error>)
    requires |outcomes| == |targets|
    ensures Fresh(RestoreAll(targets, outcomes, partial, rejected).pending)
  {
    if targets != [] {
      PendingIsFresh(targets[..|targets| - 1], outcomes[..|targets| - 1], partial, rejected);
    }
  }

  predicate DistinctUnits(ts: seq<Target>) {
    forall i, j {:trigger ts[i], ts[j]} | 0 <= i < j < |ts| :: UnitOf(ts[i].uri) != UnitOf(ts[j].uri)
  }

  lemma {:induction false} TargetsAreDistinct(objects: seq<TransportObject>, lookup: nat -> Lookup)
    ensures DistinctUnits(Resolve(objects, lookup).targets)
  {
    if objects != [] {
      var before := Resolve(objects[..|objects| - 1], lookup).targets;
      TargetsAreDistinct(objects[..|objects| - 1], lookup);
      forall i | 0 <= i < |before| ensures UnitOf(before[i].uri) in TargetIds(before) {
        assert TargetIds(before)[i] == UnitOf(before[i].uri);
      }
    }
  }

  lemma {:induction false} PendingAreDistinct(targets: seq<Target>, outcomes: seq<Outcome>, partial: bool,
                                              rejected: Option<Error>)
    requires |outcomes| == |targets| && DistinctUnits(targets)
    ensures var pending := RestoreAll(targets, outcomes, partial, rejected).pending;
            && DistinctUris(pending)
            && forall i {:trigger pending[i]} | 0 <= i < |pending| ::
                 exists j :: 0 <= j < |targets| && targets[j].uri == pending[i].uri
  {
    if targets != [] {
      var n := |targets| - 1;
      PendingAreDistinct(targets[..n], outcomes[..n], partial, rejected);
      var before := RestoreAll(targets[..n], outcomes[..n], partial, rejected).pending;
      forall i | 0 <= i < |before|
        ensures before[i].uri != targets[n].uri
        ensures exists j :: 0 <= j < |targets| && targets[j].uri == before[i].uri
      {
        var j :| 0 <= j < n && targets[..n][j].uri == before[i].uri;
        assert targets[j].uri == before[i].uri;
      }
    }
  }

  lemma {:induction false} LocalAreDistinct(objs: seq<CreatedObject>, sid: string, origin: string -> Origin)
    requires DistinctUris(objs)
    ensures DistinctUris(KeepAll(objs, sid, origin).local)
  {
    if objs != [] {
      var n := |objs| - 1;
      LocalAreDistinct(objs[..n], sid, origin);
      KeptAreLocal(objs[..n], sid, origin);
      var local := KeepAll(objs[..n], sid, origin).local;
      forall i | 0 <= i < |local| ensures local[i].uri != objs[n].uri {
        assert local[i] in objs[..n];
      }
    }
  }

  /** So what the deletion of every rollback is handed are distinct objects, and on a server that
      refuses to delete what is in use it leaves exactly the largest set of them whose members are each
      used by another member or by one of the others: any object the deletion does not touch, such as a
      created one of another system. */
  lemma DeletionLeavesLargestSupported(objects: seq<TransportObject>, outcomes: seq<Outcome>, request: string, w: World,
                                       uses: Uses, others: set<string>, kept: set<string>)
    requires |outcomes| == |Resolve(objects, w.lookup).targets| && RefusesUsed(w.delete, uses, others)
    ensures var r := Resolve(objects, w.lookup);
            var pending := RestoreAll(r.targets, outcomes, r.partial, r.rejected).pending;
            var local := KeepAll(pending, SystemOf(request), w.origin).local;
            var left := Uris(DeleteRounds(local, [], Uris(local), w.delete).next);
            && left <= Uris(local) && Supported(left, uses, others)
            && (kept <= Uris(local) && Supported(kept, uses, others) ==> kept <= left)
  {
    var r := Resolve(objects, w.lookup);
    TargetsAreDistinct(objects, w.lookup);
    PendingAreDistinct(r.targets, outcomes, r.partial, r.rejected);
    var pending := RestoreAll(r.targets, outcomes, r.partial, r.rejected).pending;
    LocalAreDistinct(pending, SystemOf(request), w.origin);
    LargestSupported(KeepAll(pending, SystemOf(request), w.origin).local, w.delete, uses, others, kept);
  }

  lemma LargestSupported(local: seq<CreatedObject>, delete: DeleteAnswers, uses: Uses, others: set<string>,
                         kept: set<string>)
    requires DistinctUris(local) && RefusesUsed(delete, uses, others)
    ensures var left := Uris(DeleteRounds(local, [], Uris(local), delete).next);
            && left <= Uris(local) && Supported(left, uses, others)
            && (kept <= Uris(local) && Supported(kept, uses, others) ==> kept <= left)
  {
    var some := if kept <= Uris(local) && Supported(kept, uses, others) then kept else {};
    LeavesLargestSupported(local, [], delete, uses, others, some);
  }

  predicate UnitObjects(os: seq<CreatedObject>) { forall i {:trigger os[i]} | 0 <= i < |os| :: os[i].id.OfUnit? }

  /** Restores report units only. */
  predicate ReportsUnits(p: Progress) {
    OnlyUnits(p.restored) && OnlyUnits(p.failed) && OnlyUnits(p.created) && UnitObjects(p.pending)
  }

  lemma {:induction false} RestoresReportUnits(targets: seq<Target>, outcomes: seq<Outcome>, partial: bool,
                                               rejected: Option<Error>)
    requires |outcomes| == |targets|
    ensures ReportsUnits(RestoreAll(targets, outcomes, partial, rejected))
  {
    if targets != [] {
      RestoresReportUnits(targets[..|targets| - 1], outcomes[..|targets| - 1], partial, rejected);
    }
  }

  lemma {:induction false} KeepReportsUnits(objs: seq<CreatedObject>, sid: string, origin: string -> Origin)
    requires UnitObjects(objs)
    ensures var k := KeepAll(objs, sid, origin); UnitObjects(k.local) && OnlyUnits(k.failed) && OnlyUnits(k.created)
  {
    if objs != [] {
      KeepReportsUnits(objs[..|objs| - 1], sid, origin);
    }
  }

  lemma {:induction false} RoundReportsUnits(pending: seq<CreatedObject>, log: seq<Attempt>, alive: set<string>,
                                             delete: DeleteAnswers)
    requires UnitObjects(pending)
    ensures var r := DeleteRound(pending, log, alive, delete); UnitObjects(r.next) && OnlyUnits(r.deleted)
  {
    if pending != [] {
      RoundReportsUnits(pending[..|pending| - 1], log, alive, delete);
    }
  }

  lemma {:induction false} DeletionReportsUnits(pending: seq<CreatedObject>, log: seq<Attempt>, alive: set<string>,
                                                delete: DeleteAnswers)
    requires UnitObjects(pending)
    ensures var r := DeleteRounds(pending, log, alive, delete); UnitObjects(r.next) && OnlyUnits(r.deleted)
    decreases |pending|
  {
    if pending != [] {
      RoundReportsUnits(pending, log, alive, delete);
      var r := DeleteRound(pending, log, alive, delete);
      if r.rejected.None? && r.deleted != [] {
        DeletionReportsUnits(r.next, r.log, r.alive, delete);
      }
    }
  }

  lemma OnlyUnitsAppend(a: seq<Entry>, b: seq<Entry>)
    requires OnlyUnits(a) && OnlyUnits(b)
    ensures OnlyUnits(a + b)
  {}

  /** More entries about units change nothing about where transport entries are. */
  lemma UnitsAppended(a: seq<Entry>, b: seq<Entry>)
    requires OnlyUnits(b)
    ensures forall i: nat {:trigger HasId(a + b, OfEntry(i))} :: HasId(a + b, OfEntry(i)) <==> HasId(a, OfEntry(i))
  {
    forall i: nat ensures HasId(a + b, OfEntry(i)) <==> HasId(a, OfEntry(i)) {
      HasIdAppend(a, b, OfEntry(i));
      UnitsAreNoEntries(b, i);
    }
  }

  /** Settling leaves Skipped alone and adds units to the other lists. */
  lemma {:induction false} SettleAddsUnits(l: Lists, pending: seq<CreatedObject>, partial: bool,
                                           rejected: Option<Error>, request: string, deleteCreated: bool, w: World)
    returns (failed: seq<Entry>)
    requires Fresh(pending) && UnitObjects(pending) && OnlyUnits(l.created) && OnlyUnits(l.deleted)
    ensures var l' := Settle(l, pending, partial, rejected, request, deleteCreated, w);
            && l'.skipped == l.skipped && l'.restored == l.restored && l'.failed == l.failed + failed
            && OnlyUnits(failed) && OnlyUnits(l'.created) && OnlyUnits(l'.deleted)
  {
    var k := KeepAll(pending, SystemOf(request), w.origin);
    KeepReportsUnits(pending, SystemOf(request), w.origin);
    KeptAreLocal(pending, SystemOf(request), w.origin);
    LeftAreExplained(k.local, [], Uris(k.local), w.delete);
    DeletionReportsUnits(k.local, [], Uris(k.local), w.delete);
    var r := DeleteRounds(k.local, [], Uris(k.local), w.delete);
    if GateOpen(l, pending, partial, rejected, deleteCreated) {
      failed := k.failed + FailedEntries(r.next, r.rejected);
      assert l.failed + k.failed + FailedEntries(r.next, r.rejected) == l.failed + failed;
    } else {
      failed := if pending != [] && deleteCreated && rejected.Some? then Reported(pending, NotDeleted(rejected.value))
                else [];
      assert l.failed + [] == l.failed;
    }
  }

  lemma {:induction false} RollbackPlaces(objects: seq<TransportObject>, outcomes: seq<Outcome>, request: string,
                                          deleteCreated: bool, w: World)
    requires |outcomes| == |Resolve(objects, w.lookup).targets|
    requires var r := Resolve(objects, w.lookup); Fresh(RestoreAll(r.targets, outcomes, r.partial, r.rejected).pending)
    ensures var r := Resolve(objects, w.lookup);
            var p := RestoreAll(r.targets, outcomes, r.partial, r.rejected);
            var lists := Settle(With(AfterLookups(r), p), p.pending, p.partial, p.rejected, request, deleteCreated, w);
            && EntriesPlaced(objects, w.lookup, lists.skipped, lists.failed)
            && OnlyEntries(lists.skipped) && OnlyUnits(lists.restored) && OnlyUnits(lists.created)
            && OnlyUnits(lists.deleted)
  {
    var r := Resolve(objects, w.lookup);
    var p := RestoreAll(r.targets, outcomes, r.partial, r.rejected);
    RestoresReportUnits(r.targets, outcomes, r.partial, r.rejected);
    ResolutionPlacesEntries(objects, w.lookup);
    var l := With(AfterLookups(r), p);
    var failed := SettleAddsUnits(l, p.pending, p.partial, p.rejected, request, deleteCreated, w);
    var lists := Settle(l, p.pending, p.partial, p.rejected, request, deleteCreated, w);
    assert l.skipped == r.skipped && lists.skipped == r.skipped;
    assert lists.failed == r.failed + (p.failed + failed);
    OnlyUnitsAppend(p.failed, failed);
    PlacesKept(objects, w.lookup, r.skipped, r.failed, p.failed + failed);
  }

  lemma {:induction false} PlacesKept(objects: seq<TransportObject>, lookup: nat -> Lookup, skipped: seq<Entry>,
                                      failed: seq<Entry>, more: seq<Entry>)
    requires EntriesPlaced(objects, lookup, skipped, failed) && OnlyUnits(more)
    ensures EntriesPlaced(objects, lookup, skipped, failed + more)
  {
    UnitsAppended(failed, more);
  }

  /** The queries and requests SettleCreated counts are those of the trace. */
  lemma {:induction false} DeletionCounts(l: Lists, p: Progress, request: string, deleteCreated: bool, w: World,
                                          origins: nat, log: seq<Attempt>)
    requires var k := KeepAll(p.pending, SystemOf(request), w.origin);
             if GateOpen(l, p.pending, p.partial, p.rejected, deleteCreated)
             then origins == k.asked && log == DeleteRounds(k.local, [], Uris(k.local), w.delete).log
             else origins == 0 && log == []
    ensures OriginFlags(Take(p.pending, origins), w.origin) + DeleteFlags(log)
            == if GateOpen(l, p.pending, p.partial, p.rejected, deleteCreated)
               then DeletionTrace(p.pending, SystemOf(request), w) else []
  {
    assert Take(p.pending, 0) == [];
  }
}
