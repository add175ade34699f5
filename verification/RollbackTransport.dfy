/** The whole rollback (adt/rollback.go: RollbackTransportWithOptions). */
module RollbackTransport {
  import opened Wrappers
  import opened Text
  import opened RestorePlan
  import opened RollbackReport
  import opened RollbackTargets
  import opened Deletion
  import opened Rollback
  import opened RollbackVerdicts

  /** The answers of GetTransportObjects and GetTransportTasks. */
  datatype Objects = Objects(objects: seq<TransportObject>) | ObjectsFailed(err: Error)
  datatype Tasks = Tasks(tasks: seq<string>) | TasksFailed(err: Error)

  /** What this rollback was told. */
  function ToldBy(objects: seq<TransportObject>, outcomes: seq<Outcome>, request: string, deleteCreated: bool,
                  lookup: nat -> Lookup, log: seq<Attempt>): Told
  {
    Told(SomeRejected(objects, lookup), SomeFailed(objects, lookup), SomePartial(objects, lookup),
         Resolve(objects, lookup).targets, outcomes, deleteCreated, SystemOf(request), log)
  }

  /** Every unit is in the list its verdict names, with the reason it gives, and in no other. */
  ghost predicate UnitsPlaced(lists: Lists, t: Told, origin: string -> Origin)
    requires |t.targets| == |t.outcomes|
  {
    forall i {:trigger VerdictOf(t, origin, i)} | 0 <= i < |t.targets| ::
      IsOnlyAt(lists, t.targets[i], VerdictOf(t, origin, i))
  }

  predicate IsOnlyAt(lists: Lists, tg: Target, v: Verdict) {
    && IsAt(lists, tg, v)
    && (HasId(lists.restored, UnitOf(tg.uri)) <==> v.ToRestored?)
    && (HasId(lists.failed, UnitOf(tg.uri)) <==> v.ToFailed?)
    && (HasId(lists.created, UnitOf(tg.uri)) <==> v.ToCreated?)
    && (HasId(lists.deleted, UnitOf(tg.uri)) <==> v.ToDeleted?)
    && !HasId(lists.skipped, UnitOf(tg.uri))
  }

  /** The outcome of every restore that was asked for is right. */
  ghost predicate OutcomesRight(t: Told, w: World, own: set<string>)
    requires |t.targets| == |t.outcomes|
  {
    forall i {:trigger t.outcomes[i]} | 0 <= i < |t.targets| && !Stopped(t.rejected, t.outcomes, i) ::
      OutcomeIsRight(t.outcomes[i], w, t.targets[i].uri, own)
  }

  /** Everything ToReport names is in exactly one list, once, and nothing else is; an entry that led to no
      unit is in Skipped, one whose lookup failed or was not tried in Failed, with its reason. */
  ghost predicate EntriesRight(lists: Lists, objects: seq<TransportObject>, lookup: nat -> Lookup) {
    && AllIds(lists) == multiset(ToReport(objects, lookup))
    && EntriesPlaced(objects, lookup, lists.skipped, lists.failed)
    && EntriesReported(objects, lookup, lists.skipped, lists.failed)
  }

  /** The delete requests are for objects taken to the deletion, and their answers are the server's. */
  ghost predicate RequestsRight(t: Told, w: World)
    requires |t.targets| == |t.outcomes|
  {
    Honest(t.log, Taken(t, w.origin), w.delete) && forall a | a in t.log :: a.uri in Taken(t, w.origin)
  }

  /** The deletion gate: what was deleted is a TADIR object whose non-empty history lies wholly in the
      transport and whose source system is the request's, and everything else was rolled back. */
  ghost predicate GateRight(lists: Lists, t: Told, w: World, own: set<string>, request: string)
    requires |t.targets| == |t.outcomes|
  {
    forall i {:trigger t.targets[i]} | 0 <= i < |t.targets| && HasId(lists.deleted, UnitOf(t.targets[i].uri)) ::
      MayBeDeleted(w, t.targets[i], own, request) && DeletionOpen(t)
  }

  /** A result of the rollback. */
  ghost predicate ResultIsRight(lists: Lists, outcomes: seq<Outcome>, log: seq<Attempt>, objects: seq<TransportObject>,
                                own: set<string>, request: string, deleteCreated: bool, w: World)
  {
    var t := ToldBy(objects, outcomes, request, deleteCreated, w.lookup, log);
    && |t.targets| == |t.outcomes| && OutcomesRight(t, w, own)
    && EntriesRight(lists, objects, w.lookup) && UnitsPlaced(lists, t, w.origin)
    && RequestsRight(t, w) && GateRight(lists, t, w, own, request)
  }

  lemma {:induction false} EntryHasId(es: seq<Entry>, e: Entry)
    requires e in es
    ensures HasId(es, e.id) && Bag(es)[e.id] > 0
  {
    var i :| 0 <= i < |es| && es[i] == e;
    assert EntryIds(es)[i] == e.id;
  }

  /** What is in one list, once over all, is in no other. */
  lemma {:induction false} OnlyThere(lists: Lists, ids: set<Id>, tg: Target, v: Verdict)
    requires AllIds(lists) == multiset(ids) && IsAt(lists, tg, v)
    ensures IsOnlyAt(lists, tg, v)
  {
    var id := UnitOf(tg.uri);
    OnceOver(lists, ids, id);
    match v
    case ToRestored => EntryHasId(lists.restored, EntryFor(tg, NoReason));
    case ToFailed(reason) => EntryHasId(lists.failed, EntryFor(tg, reason));
    case ToCreated(reason) => EntryHasId(lists.created, EntryFor(tg, reason));
    case ToDeleted => EntryHasId(lists.deleted, EntryFor(tg, NoReason));
  }

  lemma {:induction false} OnceOver(lists: Lists, ids: set<Id>, id: Id)
    requires AllIds(lists) == multiset(ids)
    ensures Bag(lists.restored)[id] + Bag(lists.skipped)[id] + Bag(lists.failed)[id] + Bag(lists.created)[id]
            + Bag(lists.deleted)[id] <= 1
    ensures HasId(lists.restored, id) <==> Bag(lists.restored)[id] > 0
    ensures HasId(lists.skipped, id) <==> Bag(lists.skipped)[id] > 0
    ensures HasId(lists.failed, id) <==> Bag(lists.failed)[id] > 0
    ensures HasId(lists.created, id) <==> Bag(lists.created)[id] > 0
    ensures HasId(lists.deleted, id) <==> Bag(lists.deleted)[id] > 0
  {
    assert multiset(ids)[id] <= 1;
  }

  /** A unit in Deleted was found created, and its system is the request's. */
  lemma {:induction false} GateWasHeld(lists: Lists, t: Told, w: World, own: set<string>, request: string)
    requires |t.targets| == |t.outcomes| && OutcomesRight(t, w, own) && t.sid == SystemOf(request)
    requires UnitsPlaced(lists, t, w.origin)
    ensures GateRight(lists, t, w, own, request)
  {
    forall i {:trigger t.targets[i]} | 0 <= i < |t.targets| && HasId(lists.deleted, UnitOf(t.targets[i].uri))
      ensures MayBeDeleted(w, t.targets[i], own, request) && DeletionOpen(t)
    {
      assert IsOnlyAt(lists, t.targets[i], VerdictOf(t, w.origin, i));
      assert t.outcomes[i] == Created && OutcomeIsRight(t.outcomes[i], w, t.targets[i].uri, own);
    }
  }

  /** The facts of this rollback, as its lookups and restores leave them. */
  lemma {:induction false} ToldIsTold(objects: seq<TransportObject>, outcomes: seq<Outcome>, request: string,
                                      deleteCreated: bool, w: World, log: seq<Attempt>) returns (idx: seq<nat>)
    requires |outcomes| == |Resolve(objects, w.lookup).targets|
    ensures var r := Resolve(objects, w.lookup);
            var p := RestoreAll(r.targets, outcomes, r.partial, r.rejected);
            var t := ToldBy(objects, outcomes, request, deleteCreated, w.lookup, log);
            && IsTold(t, p, With(AfterLookups(r), p)) && IsPicked(t, p.pending, idx) && Fresh(p.pending)
            && AllRestorePlaced(p, t.rejected, t.targets, t.outcomes)
  {
    var r := Resolve(objects, w.lookup);
    var t := ToldBy(objects, outcomes, request, deleteCreated, w.lookup, log);
    RejectedExactly(objects, w.lookup);
    assert t.rejected == r.rejected.Some?;
    PartialExactly(objects, w.lookup);
    FailedExactly(objects, w.lookup);
    RestoresAreRight(r.targets, outcomes, r.partial, r.rejected);
    PendingIsFresh(r.targets, outcomes, r.partial, r.rejected);
    TargetsAreDistinct(objects, w.lookup);
    UnitsHaveUris(r.targets);
    idx := PendingPicks(r.targets, outcomes, r.partial, r.rejected);
  }

  lemma {:induction false} UnitsHaveUris(ts: seq<Target>)
    requires DistinctUnits(ts)
    ensures DistinctTargets(ts)
  {}

  lemma {:induction false} EntriesStay(objects: seq<TransportObject>, lookup: nat -> Lookup, lists: Lists)
    requires var r := Resolve(objects, lookup);
             lists.skipped == r.skipped && forall e | e in r.failed :: e in lists.failed
    ensures EntriesReported(objects, lookup, lists.skipped, lists.failed)
  {
    var r := Resolve(objects, lookup);
    ResolutionReportsEntries(objects, lookup);
    forall i | 0 <= i < |objects| ensures EntryReported(objects, lookup, lists.skipped, lists.failed, i) {
      assert EntryReported(objects, lookup, r.skipped, r.failed, i);
    }
  }

  lemma {:induction false} AllPlacedOnce(t: Told, p: Progress, l: Lists, request: string, deleteCreated: bool, w: World,
                                         idx: seq<nat>, ids: set<Id>, lists: Lists)
    requires IsTold(t, p, l) && IsPicked(t, p.pending, idx) && Fresh(p.pending)
    requires IsOf(t, l, p, request, deleteCreated, w) && AllRestorePlaced(p, t.rejected, t.targets, t.outcomes)
    requires forall e | e in p.restored :: e in l.restored
    requires forall e | e in p.failed :: e in l.failed
    requires forall e | e in p.created :: e in l.created
    requires lists == Settle(l, p.pending, p.partial, p.rejected, request, deleteCreated, w)
    requires AllIds(lists) == multiset(ids)
    ensures UnitsPlaced(lists, t, w.origin)
  {
    forall i | 0 <= i < |t.targets| ensures IsOnlyAt(lists, t.targets[i], VerdictOf(t, w.origin, i)) {
      UnitPlaced(t, p, l, request, deleteCreated, w, idx, i);
      OnlyThere(lists, ids, t.targets[i], VerdictOf(t, w.origin, i));
    }
  }

  /** Lookups, restores with right outcomes, and settling make a right result. */
  lemma {:induction false} RollbackIsRight(objects: seq<TransportObject>, outcomes: seq<Outcome>, own: set<string>,
                                           request: string, deleteCreated: bool, w: World, log: seq<Attempt>,
                                           r: Resolution, p: Progress, l: Lists, lists: Lists)
    requires r == Resolve(objects, w.lookup) && |outcomes| == |r.targets| && l == With(AfterLookups(r), p)
    requires p == RestoreAll(r.targets, outcomes, r.partial, r.rejected) && Fresh(p.pending)
    requires lists == Settle(l, p.pending, p.partial, p.rejected, request, deleteCreated, w)
    requires OutcomesAreRight(r.targets, outcomes, p.asked, w, own)
    requires IsOf(ToldBy(objects, outcomes, request, deleteCreated, w.lookup, log), l, p, request, deleteCreated, w)
    ensures ResultIsRight(lists, outcomes, log, objects, own, request, deleteCreated, w)
  {
    var t := ToldBy(objects, outcomes, request, deleteCreated, w.lookup, log);
    var idx := ToldIsTold(objects, outcomes, request, deleteCreated, w, log);
    RollbackAccounts(objects, outcomes, request, deleteCreated, w);
    RollbackPlaces(objects, outcomes, request, deleteCreated, w);
    SettleKeepsEntries(l, p, request, deleteCreated, w, lists);
    EntriesStay(objects, w.lookup, lists);
    RequestsAreForTaken(t, p, l, request, deleteCreated, w, idx);
    AllPlacedOnce(t, p, l, request, deleteCreated, w, idx, ToReport(objects, w.lookup), lists);
    OutcomesAreTold(t, p, w, own);
    GateWasHeld(lists, t, w, own, request);
  }

  lemma {:induction false} OutcomesAreTold(t: Told, p: Progress, w: World, own: set<string>)
    requires |t.targets| == |t.outcomes| && RestoresSay(p, t.partial, t.rejected, t.targets, t.outcomes)
    requires OutcomesAreRight(t.targets, t.outcomes, p.asked, w, own)
    ensures OutcomesRight(t, w, own)
  {}

  lemma {:induction false} SettleKeepsEntries(l: Lists, p: Progress, request: string, deleteCreated: bool, w: World,
                                              lists: Lists)
    requires Fresh(p.pending)
    requires lists == Settle(l, p.pending, p.partial, p.rejected, request, deleteCreated, w)
    ensures lists.skipped == l.skipped && forall e | e in l.failed :: e in lists.failed
  {}

  /** The rollback, once the objects of the transport and its tasks are known; log lists its delete
      requests. */
  method RollbackObjects(w: World, request: string, objects: seq<TransportObject>, transports: seq<string>,
                         deleteCreated: bool)
    returns (result: Result, ghost outcomes: seq<Outcome>, log: seq<Attempt>, ghost trace: seq<bool>)
    ensures fresh(result)
    ensures ResultIsRight(result.View(), outcomes, log, objects, Folded(transports), request, deleteCreated, w)
    ensures trace == ObjectsTrace(objects, outcomes, request, deleteCreated, w)
  {
    result := new Result();
    ghost var r := Resolve(objects, w.lookup);
    var targets, partial, rejected, lookups := FindTargets(w.lookup, objects, result);
    assert result.View() == AfterLookups(r);
    var pending, asked;
    pending, partial, rejected, asked, outcomes := RestoreTargets(w, targets, transports, partial, rejected, result);
    ghost var p := RestoreAll(r.targets, outcomes, r.partial, r.rejected);
    ghost var l := With(AfterLookups(r), p);
    PendingIsFresh(r.targets, outcomes, r.partial, r.rejected);
    var origins;
    origins, log := SettleCreated(w, pending, partial, rejected, request, deleteCreated, result);
    RollbackIsRight(objects, outcomes, Folded(transports), request, deleteCreated, w, log, r, p, l, result.View());
    trace := LookupFlags(lookups, w.lookup) + RestoreFlags(Take(outcomes, asked))
             + (OriginFlags(Take(pending, origins), w.origin) + DeleteFlags(log));
    DeletionCounts(l, p, request, deleteCreated, w, origins, log);
  }

  /** RollbackTransportWithOptions. It gives no result exactly when the transport's objects cannot be
      read, or its tasks cannot because of a 401. */
  method RollbackTransportWithOptions(w: World, request: string, objects: Objects, tasks: Tasks, deleteCreated: bool)
    returns (result: Result?, ghost outcomes: seq<Outcome>, log: seq<Attempt>, ghost trace: seq<bool>)
    ensures result == null <==> objects.ObjectsFailed? || tasks == TasksFailed(Unauthorized)
    ensures result != null ==>
              fresh(result) &&
              ResultIsRight(result.View(), outcomes, log, objects.objects,
                            Folded([request] + if tasks.Tasks? then tasks.tasks else []), request, deleteCreated, w)
              && trace == [false, false] + ObjectsTrace(objects.objects, outcomes, request, deleteCreated, w)
    ensures result == null ==>
              log == [] && trace == if objects.ObjectsFailed? then [objects.err.Unauthorized?] else [false, true]
  {
    outcomes, log := [], [];
    if objects.ObjectsFailed? {
      return null, outcomes, log, [objects.err.Unauthorized?];
    }
    if tasks.TasksFailed? && tasks.err.Unauthorized? {
      return null, outcomes, log, [false, true];
    }
    var transports := [request] + if tasks.Tasks? then tasks.tasks else [];
    result, outcomes, log, trace := RollbackObjects(w, request, objects.objects, transports, deleteCreated);
    trace := [false, false] + trace;
  }
}
