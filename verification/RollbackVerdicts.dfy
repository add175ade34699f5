/** What a rollback reports about each unit of source, told from the answers alone: which list it is in
    and with which reason (adt/rollback.go: RollbackTransportWithOptions). */
module RollbackVerdicts {
  import opened Wrappers
  import opened RollbackReport
  import opened RollbackTargets
  import opened Deletion
  import opened Rollback

  datatype Verdict = ToRestored | ToFailed(reason: Reason) | ToCreated(reason: Reason) | ToDeleted

  /** The list it names has the entry. */
  predicate IsAt(lists: Lists, tg: Target, v: Verdict) {
    match v
    case ToRestored => EntryFor(tg, NoReason) in lists.restored
    case ToFailed(reason) => EntryFor(tg, reason) in lists.failed
    case ToCreated(reason) => EntryFor(tg, reason) in lists.created
    case ToDeleted => EntryFor(tg, NoReason) in lists.deleted
  }

  // ---------------------------------------------------------------------------
  // Restoring
  // ---------------------------------------------------------------------------

  /** A 401, on a lookup or on a restore, came before the i-th target. */
  predicate Stopped(rejected: bool, outcomes: seq<Outcome>, i: nat)
    requires i <= |outcomes|
  {
    rejected || exists j :: 0 <= j < i && outcomes[j] == RestoreFailed(Unauthorized)
  }

  /** The i-th target was found created, as an object of its own. */
  predicate IsPending(rejected: bool, targets: seq<Target>, outcomes: seq<Outcome>, i: nat)
    requires i < |targets| == |outcomes|
  {
    !Stopped(rejected, outcomes, i) && outcomes[i] == Created && targets[i].tadir
  }

  /** The i-th target was found created, as a part of another object. */
  predicate IsSubObject(rejected: bool, targets: seq<Target>, outcomes: seq<Outcome>, i: nat)
    requires i < |targets| == |outcomes|
  {
    !Stopped(rejected, outcomes, i) && outcomes[i] == Created && !targets[i].tadir
  }

  predicate SomeSubObject(rejected: bool, targets: seq<Target>, outcomes: seq<Outcome>)
    requires |targets| == |outcomes|
  {
    exists i :: 0 <= i < |targets| && IsSubObject(rejected, targets, outcomes, i)
  }

  predicate IsNotRestored(rejected: bool, outcomes: seq<Outcome>, i: nat)
    requires i < |outcomes|
  {
    Stopped(rejected, outcomes, i) || outcomes[i].RestoreFailed?
  }

  predicate SomeNotRestored(rejected: bool, outcomes: seq<Outcome>) {
    exists i :: 0 <= i < |outcomes| && IsNotRestored(rejected, outcomes, i)
  }

  /** Where the restores leave the i-th target. */
  predicate RestorePlaced(p: Progress, rejected: bool, targets: seq<Target>, outcomes: seq<Outcome>, i: nat)
    requires i < |targets| == |outcomes|
  {
    var tg := targets[i];
    if Stopped(rejected, outcomes, i) then EntryFor(tg, NotAttempted(Unauthorized)) in p.failed
    else match outcomes[i]
         case Restored => EntryFor(tg, NoReason) in p.restored
         case RestoreFailed(err) => EntryFor(tg, NotRestored(err)) in p.failed
         case Created => !tg.tadir ==> EntryFor(tg, CreatedSubObject) in p.created
  }

  ghost predicate AllRestorePlaced(p: Progress, rejected: bool, targets: seq<Target>, outcomes: seq<Outcome>)
    requires |targets| == |outcomes|
  {
    forall i {:trigger RestorePlaced(p, rejected, targets, outcomes, i)} | 0 <= i < |targets| ::
      RestorePlaced(p, rejected, targets, outcomes, i)
  }

  /** What the restores leave for the rest of the rollback. */
  ghost predicate RestoresSay(p: Progress, partial: bool, rejected: bool, targets: seq<Target>, outcomes: seq<Outcome>)
    requires |targets| == |outcomes|
  {
    && p.rejected == (if Stopped(rejected, outcomes, |outcomes|) then Some(Unauthorized) else None)
    && (p.partial <==> partial || SomeSubObject(rejected, targets, outcomes))
    && (p.failed != [] <==> SomeNotRestored(rejected, outcomes))
    && p.asked <= |outcomes|
    && (forall i {:trigger Stopped(rejected, outcomes, i)} | 0 <= i < |outcomes| ::
          i < p.asked <==> !Stopped(rejected, outcomes, i))
  }

  lemma StoppedOfPrefix(rejected: bool, outcomes: seq<Outcome>, o: Outcome, i: nat)
    requires i <= |outcomes|
    ensures Stopped(rejected, outcomes + [o], i) == Stopped(rejected, outcomes, i)
  {
    assert forall j | 0 <= j < i :: (outcomes + [o])[j] == outcomes[j];
  }

  lemma StoppedAtEnd(rejected: bool, outcomes: seq<Outcome>, o: Outcome)
    ensures Stopped(rejected, outcomes + [o], |outcomes| + 1) <==>
            Stopped(rejected, outcomes, |outcomes|) || o == RestoreFailed(Unauthorized)
  {
    var more := outcomes + [o];
    assert more[|outcomes|] == o;
    assert forall j | 0 <= j < |outcomes| :: more[j] == outcomes[j];
  }

  lemma {:induction false} SomeNotRestoredSnoc(rejected: bool, outcomes: seq<Outcome>, o: Outcome)
    ensures SomeNotRestored(rejected, outcomes + [o]) <==>
            SomeNotRestored(rejected, outcomes) || Stopped(rejected, outcomes, |outcomes|) || o.RestoreFailed?
  {
    var more, n := outcomes + [o], |outcomes|;
    assert more[n] == o;
    forall i | 0 <= i <= n ensures Stopped(rejected, more, i) == Stopped(rejected, outcomes, i) {
      StoppedOfPrefix(rejected, outcomes, o, i);
    }
    assert IsNotRestored(rejected, more, n) <==> Stopped(rejected, outcomes, n) || o.RestoreFailed?;
    assert forall i | 0 <= i < n :: IsNotRestored(rejected, more, i) == IsNotRestored(rejected, outcomes, i);
  }

  lemma {:induction false} SomeSubObjectSnoc(rejected: bool, targets: seq<Target>, outcomes: seq<Outcome>, tg: Target,
                                             o: Outcome)
    requires |targets| == |outcomes|
    ensures SomeSubObject(rejected, targets + [tg], outcomes + [o]) <==>
            SomeSubObject(rejected, targets, outcomes)
            || (!Stopped(rejected, outcomes, |outcomes|) && o == Created && !tg.tadir)
  {
    var ts, more, n := targets + [tg], outcomes + [o], |outcomes|;
    assert more[n] == o && ts[n] == tg;
    forall i | 0 <= i <= n ensures Stopped(rejected, more, i) == Stopped(rejected, outcomes, i) {
      StoppedOfPrefix(rejected, outcomes, o, i);
    }
    assert IsSubObject(rejected, ts, more, n) <==> !Stopped(rejected, outcomes, n) && o == Created && !tg.tadir;
    assert forall i | 0 <= i < n :: IsSubObject(rejected, ts, more, i) == IsSubObject(rejected, targets, outcomes, i);
  }

  lemma {:induction false} RestoresSayMore(p: Progress, partial: bool, rejected: bool, targets: seq<Target>,
                                           outcomes: seq<Outcome>, tg: Target, o: Outcome)
    requires |targets| == |outcomes| && RestoresSay(p, partial, rejected, targets, outcomes)
    requires p.rejected.None? ==> p.asked == |outcomes|
    ensures RestoresSay(RestoreOne(p, tg, o), partial, rejected, targets + [tg], outcomes + [o])
  {
    var more, n := outcomes + [o], |outcomes|;
    StoppedAtEnd(rejected, outcomes, o);
    SomeNotRestoredSnoc(rejected, outcomes, o);
    SomeSubObjectSnoc(rejected, targets, outcomes, tg, o);
    forall i | 0 <= i <= n ensures Stopped(rejected, more, i) == Stopped(rejected, outcomes, i) {
      StoppedOfPrefix(rejected, outcomes, o, i);
    }
  }

  lemma {:induction false} RestoresPlacedMore(p: Progress, rejected: bool, targets: seq<Target>,
                                              outcomes: seq<Outcome>, tg: Target, o: Outcome)
    requires |targets| == |outcomes| && AllRestorePlaced(p, rejected, targets, outcomes)
    requires p.rejected == (if Stopped(rejected, outcomes, |outcomes|) then Some(Unauthorized) else None)
    ensures AllRestorePlaced(RestoreOne(p, tg, o), rejected, targets + [tg], outcomes + [o])
  {
    var ts, more, n, p' := targets + [tg], outcomes + [o], |outcomes|, RestoreOne(p, tg, o);
    forall i | 0 <= i <= n ensures RestorePlaced(p', rejected, ts, more, i) {
      StoppedOfPrefix(rejected, outcomes, o, i);
      if i < n {
        assert RestorePlaced(p, rejected, targets, outcomes, i) && ts[i] == targets[i] && more[i] == outcomes[i];
      } else {
        assert ts[n] == tg && more[n] == o;
      }
    }
  }

  /** The restores, told from their outcomes. */
  lemma {:induction false} RestoresAreRight(targets: seq<Target>, outcomes: seq<Outcome>, partial: bool,
                                            rejected: Option<Error>)
    requires |targets| == |outcomes| && (rejected.Some? ==> rejected.value == Unauthorized)
    ensures var p := RestoreAll(targets, outcomes, partial, rejected);
            && RestoresSay(p, partial, rejected.Some?, targets, outcomes)
            && AllRestorePlaced(p, rejected.Some?, targets, outcomes)
  {
    if targets != [] {
      var n := |targets| - 1;
      var ts, os := targets[..n], outcomes[..n];
      var p := RestoreAll(ts, os, partial, rejected);
      RestoresAreRight(ts, os, partial, rejected);
      assert p.rejected.None? ==> p.asked == n by {
        RestoresStopAt401(ts, os, partial, rejected);
      }
      assert p.rejected == (if Stopped(rejected.Some?, os, n) then Some(Unauthorized) else None);
      RestoresSayMore(p, partial, rejected.Some?, ts, os, targets[n], outcomes[n]);
      RestoresPlacedMore(p, rejected.Some?, ts, os, targets[n], outcomes[n]);
      assert ts + [targets[n]] == targets && os + [outcomes[n]] == outcomes;
    }
  }

  function PendingAt(rejected: bool, targets: seq<Target>, outcomes: seq<Outcome>): set<nat>
    requires |targets| == |outcomes|
  {
    set i: nat | 0 <= i < |targets| && IsPending(rejected, targets, outcomes, i)
  }

  lemma {:induction false} PendingAtSnoc(rejected: bool, targets: seq<Target>, outcomes: seq<Outcome>, tg: Target,
                                         o: Outcome)
    requires |targets| == |outcomes|
    ensures PendingAt(rejected, targets + [tg], outcomes + [o])
            == PendingAt(rejected, targets, outcomes)
               + (if !Stopped(rejected, outcomes, |outcomes|) && o == Created && tg.tadir then {|outcomes|} else {})
  {
    var ts, more, n := targets + [tg], outcomes + [o], |outcomes|;
    assert more[n] == o && ts[n] == tg;
    forall i | 0 <= i <= n ensures Stopped(rejected, more, i) == Stopped(rejected, outcomes, i) {
      StoppedOfPrefix(rejected, outcomes, o, i);
    }
    assert IsPending(rejected, ts, more, n) <==> !Stopped(rejected, outcomes, n) && o == Created && tg.tadir;
    assert forall i | 0 <= i < n :: IsPending(rejected, ts, more, i) == IsPending(rejected, targets, outcomes, i);
  }

  /** The pending objects are, in order, the targets at these indices. */
  ghost predicate PendingPicked(pending: seq<CreatedObject>, targets: seq<Target>, idx: seq<nat>) {
    && |idx| == |pending|
    && forall k {:trigger idx[k]} {:trigger pending[k]} | 0 <= k < |idx| ::
         idx[k] < |targets| && pending[k] == ObjectFor(targets[idx[k]])
  }

  lemma {:induction false} PendingPicksMore(p: Progress, rejected: bool, targets: seq<Target>, outcomes: seq<Outcome>,
                                            tg: Target, o: Outcome, idx: seq<nat>) returns (idx': seq<nat>)
    requires |targets| == |outcomes| && PendingPicked(p.pending, targets, idx)
    requires Enumerates(idx, PendingAt(rejected, targets, outcomes))
    requires p.rejected == (if Stopped(rejected, outcomes, |outcomes|) then Some(Unauthorized) else None)
    ensures Enumerates(idx', PendingAt(rejected, targets + [tg], outcomes + [o]))
    ensures PendingPicked(RestoreOne(p, tg, o).pending, targets + [tg], idx')
  {
    PendingAtSnoc(rejected, targets, outcomes, tg, o);
    idx' := idx;
    if p.rejected.None? && o == Created && tg.tadir {
      EnumeratesSnoc(idx, PendingAt(rejected, targets, outcomes), |outcomes|);
      idx' := idx + [|outcomes|];
    }
  }

  lemma {:induction false} PendingPicks(targets: seq<Target>, outcomes: seq<Outcome>, partial: bool,
                                        rejected: Option<Error>) returns (idx: seq<nat>)
    requires |targets| == |outcomes| && (rejected.Some? ==> rejected.value == Unauthorized)
    ensures Enumerates(idx, PendingAt(rejected.Some?, targets, outcomes))
    ensures PendingPicked(RestoreAll(targets, outcomes, partial, rejected).pending, targets, idx)
  {
    if targets == [] {
      idx := [];
    } else {
      var n := |targets| - 1;
      var ts, os := targets[..n], outcomes[..n];
      var p := RestoreAll(ts, os, partial, rejected);
      idx := PendingPicks(ts, os, partial, rejected);
      assert p.rejected == (if Stopped(rejected.Some?, os, n) then Some(Unauthorized) else None) by {
        RestoresAreRight(ts, os, partial, rejected);
      }
      idx := PendingPicksMore(p, rejected.Some?, ts, os, targets[n], outcomes[n], idx);
      assert ts + [targets[n]] == targets && os + [outcomes[n]] == outcomes;
    }
  }

  // ---------------------------------------------------------------------------
  // Origins
  // ---------------------------------------------------------------------------

  /** The origin of an object before the i-th was answered 401. */
  predicate OriginStopped(objs: seq<CreatedObject>, origin: string -> Origin, i: nat)
    requires i <= |objs|
  {
    exists j :: 0 <= j < i && origin(objs[j].uri) == OriginFailed(Unauthorized)
  }

  predicate IsLocal(objs: seq<CreatedObject>, sid: string, origin: string -> Origin, i: nat)
    requires i < |objs|
  {
    !OriginStopped(objs, origin, i) && sid != "" && origin(objs[i].uri) == System(sid)
  }

  predicate KeepPlaced(k: Kept, objs: seq<CreatedObject>, sid: string, origin: string -> Origin, i: nat)
    requires i < |objs|
  {
    var o := objs[i];
    if OriginStopped(objs, origin, i) then ObjectEntry(o, NotDeleted(Unauthorized)) in k.failed
    else match origin(o.uri)
         case OriginFailed(err) =>
           if err.Unauthorized? then ObjectEntry(o, NotDeleted(err)) in k.failed
           else ObjectEntry(o, OriginUnread(err)) in k.created
         case System(src) => sid == "" || src != sid ==> ObjectEntry(o, OtherSystem(src)) in k.created
  }

  function LocalAt(objs: seq<CreatedObject>, sid: string, origin: string -> Origin): set<nat> {
    set i: nat | 0 <= i < |objs| && IsLocal(objs, sid, origin, i)
  }

  ghost predicate KeepSays(k: Kept, objs: seq<CreatedObject>, sid: string, origin: string -> Origin, idx: seq<nat>) {
    && k.rejected == (if OriginStopped(objs, origin, |objs|) then Some(Unauthorized) else None)
    && (forall i {:trigger KeepPlaced(k, objs, sid, origin, i)} | 0 <= i < |objs| ::
          KeepPlaced(k, objs, sid, origin, i))
    && Enumerates(idx, LocalAt(objs, sid, origin)) && LocalPicked(k.local, objs, idx)
  }

  ghost predicate LocalPicked(local: seq<CreatedObject>, objs: seq<CreatedObject>, idx: seq<nat>) {
    && |idx| == |local|
    && forall l {:trigger idx[l]} {:trigger local[l]} | 0 <= l < |idx| :: idx[l] < |objs| && local[l] == objs[idx[l]]
  }

  lemma OriginStoppedOfPrefix(objs: seq<CreatedObject>, o: CreatedObject, origin: string -> Origin, i: nat)
    requires i <= |objs|
    ensures OriginStopped(objs + [o], origin, i) == OriginStopped(objs, origin, i)
  {
    assert forall j | 0 <= j < i :: (objs + [o])[j] == objs[j];
  }

  lemma OriginStoppedAtEnd(objs: seq<CreatedObject>, o: CreatedObject, origin: string -> Origin)
    ensures OriginStopped(objs + [o], origin, |objs| + 1) <==>
            OriginStopped(objs, origin, |objs|) || origin(o.uri) == OriginFailed(Unauthorized)
  {
    var more := objs + [o];
    assert more[|objs|] == o;
    assert forall j | 0 <= j < |objs| :: more[j] == objs[j];
  }

  lemma {:induction false} LocalAtSnoc(objs: seq<CreatedObject>, o: CreatedObject, sid: string,
                                       origin: string -> Origin)
    ensures LocalAt(objs + [o], sid, origin)
            == LocalAt(objs, sid, origin)
               + (if !OriginStopped(objs, origin, |objs|) && sid != "" && origin(o.uri) == System(sid) then {|objs|}
                  else {})
  {
    var more, n := objs + [o], |objs|;
    assert more[n] == o;
    forall i | 0 <= i <= n ensures OriginStopped(more, origin, i) == OriginStopped(objs, origin, i) {
      OriginStoppedOfPrefix(objs, o, origin, i);
    }
    assert IsLocal(more, sid, origin, n) <==>
           !OriginStopped(objs, origin, n) && sid != "" && origin(o.uri) == System(sid);
    assert forall i | 0 <= i < n :: IsLocal(more, sid, origin, i) == IsLocal(objs, sid, origin, i);
  }

  lemma {:induction false} KeepPlacedMore(k: Kept, objs: seq<CreatedObject>, o: CreatedObject, sid: string,
                                          origin: string -> Origin, idx: seq<nat>, i: nat)
    requires KeepSays(k, objs, sid, origin, idx) && i <= |objs|
    ensures KeepPlaced(KeepOne(k, o, sid, origin(o.uri)), objs + [o], sid, origin, i)
  {
    OriginStoppedOfPrefix(objs, o, origin, i);
    if i < |objs| {
      assert KeepPlaced(k, objs, sid, origin, i) && (objs + [o])[i] == objs[i];
    } else {
      assert (objs + [o])[i] == o;
    }
  }

  lemma {:induction false} KeepSaysMore(k: Kept, objs: seq<CreatedObject>, o: CreatedObject, sid: string,
                                        origin: string -> Origin, idx: seq<nat>) returns (idx': seq<nat>)
    requires KeepSays(k, objs, sid, origin, idx)
    ensures KeepSays(KeepOne(k, o, sid, origin(o.uri)), objs + [o], sid, origin, idx')
  {
    var n, k' := |objs|, KeepOne(k, o, sid, origin(o.uri));
    OriginStoppedAtEnd(objs, o, origin);
    LocalAtSnoc(objs, o, sid, origin);
    forall i | 0 <= i <= n ensures KeepPlaced(k', objs + [o], sid, origin, i) {
      KeepPlacedMore(k, objs, o, sid, origin, idx, i);
    }
    idx' := idx;
    if k'.local != k.local {
      EnumeratesSnoc(idx, LocalAt(objs, sid, origin), n);
      idx' := idx + [n];
    }
  }

  /** keepLocalOrigin, told from the origins alone. */
  lemma {:induction false} KeepIsRight(objs: seq<CreatedObject>, sid: string, origin: string -> Origin)
    returns (idx: seq<nat>)
    ensures KeepSays(KeepAll(objs, sid, origin), objs, sid, origin, idx)
  {
    if objs == [] {
      idx := [];
    } else {
      var n := |objs| - 1;
      idx := KeepIsRight(objs[..n], sid, origin);
      idx := KeepSaysMore(KeepAll(objs[..n], sid, origin), objs[..n], objs[n], sid, origin, idx);
      assert objs[..n] + [objs[n]] == objs;
    }
  }

  // ---------------------------------------------------------------------------
  // The verdict
  // ---------------------------------------------------------------------------

  /** What a rollback is told: how the lookups ended, the targets and the outcome of each, the option,
      the request's system, and the delete requests with their answers. */
  datatype Told = Told(rejected: bool, failed: bool, partial: bool, targets: seq<Target>, outcomes: seq<Outcome>,
                       deleteCreated: bool, sid: string, log: seq<Attempt>)

  /** The list and the reason of the i-th target. */
  function VerdictOf(t: Told, origin: string -> Origin, i: nat): Verdict
    requires i < |t.targets| == |t.outcomes|
  {
    if Stopped(t.rejected, t.outcomes, i) then ToFailed(NotAttempted(Unauthorized))
    else match t.outcomes[i]
         case Restored => ToRestored
         case RestoreFailed(err) => ToFailed(NotRestored(err))
         case Created => if t.targets[i].tadir then CreatedVerdict(t, origin, i) else ToCreated(CreatedSubObject)
  }

  /** Of an object the transport created. */
  function CreatedVerdict(t: Told, origin: string -> Origin, i: nat): Verdict
    requires i < |t.targets| == |t.outcomes|
  {
    if !t.deleteCreated then ToCreated(CreatedKept)
    else if Stopped(t.rejected, t.outcomes, |t.outcomes|) then ToFailed(NotDeleted(Unauthorized))
    else if t.failed || SomeNotRestored(t.rejected, t.outcomes) then ToCreated(CreatedRestoreErr)
    else if t.partial || SomeSubObject(t.rejected, t.targets, t.outcomes) then ToCreated(CreatedSubObjects)
    else if OriginRefused(t, origin, i) then ToFailed(NotDeleted(Unauthorized))
    else match origin(t.targets[i].uri)
         case OriginFailed(err) => if err.Unauthorized? then ToFailed(NotDeleted(err)) else ToCreated(OriginUnread(err))
         case System(src) => if t.sid == "" || src != t.sid then ToCreated(OtherSystem(src)) else DeletionVerdict(t, i)
  }

  /** The origin of a created object before the i-th target was answered 401. */
  predicate OriginRefused(t: Told, origin: string -> Origin, i: nat)
    requires i <= |t.targets| == |t.outcomes|
  {
    exists j :: 0 <= j < i && IsPending(t.rejected, t.targets, t.outcomes, j)
                && origin(t.targets[j].uri) == OriginFailed(Unauthorized)
  }

  /** Of an object taken to the deletion. */
  function DeletionVerdict(t: Told, i: nat): Verdict
    requires i < |t.targets|
  {
    var uri := t.targets[i].uri;
    if GoneIn(t.log, uri) then ToDeleted
    else match LastErr(t.log, uri)
         case None => ToFailed(DeleteNotAttempted(Unauthorized))
         case Some(err) =>
           ToFailed(if BehindTarget(t, i) then DeleteNotRetried(err, Unauthorized) else DeleteFailed(err))
  }

  /** The last delete request was answered 401, and it was for a target before this one. */
  predicate BehindTarget(t: Told, i: nat)
    requires i < |t.targets|
  {
    EndsIn401(t.log) && exists j :: 0 <= j < i && t.targets[j].uri == t.log[|t.log| - 1].uri
  }

  lemma {:induction false} IndexOf(idx: seq<nat>, s: set<nat>, i: nat) returns (k: nat)
    requires Enumerates(idx, s) && i in s
    ensures k < |idx| && idx[k] == i
  {
    k :| 0 <= k < |idx| && idx[k] == i;
  }

  lemma {:induction false} OriginStoppedMeans(t: Told, origin: string -> Origin, pending: seq<CreatedObject>,
                                              idx: seq<nat>, k: nat)
    requires |t.targets| == |t.outcomes| && PendingPicked(pending, t.targets, idx) && k < |idx|
    requires Enumerates(idx, PendingAt(t.rejected, t.targets, t.outcomes))
    ensures OriginStopped(pending, origin, k) <==> OriginRefused(t, origin, idx[k])
  {
    if OriginStopped(pending, origin, k) {
      var m :| 0 <= m < k && origin(pending[m].uri) == OriginFailed(Unauthorized);
      assert idx[m] in PendingAt(t.rejected, t.targets, t.outcomes) && idx[m] < idx[k];
      assert IsPending(t.rejected, t.targets, t.outcomes, idx[m]);
    }
    if OriginRefused(t, origin, idx[k]) {
      var j :| 0 <= j < idx[k] && IsPending(t.rejected, t.targets, t.outcomes, j)
               && origin(t.targets[j].uri) == OriginFailed(Unauthorized);
      var m := IndexOf(idx, PendingAt(t.rejected, t.targets, t.outcomes), j);
      assert m < k;
    }
  }

  ghost predicate DistinctTargets(ts: seq<Target>) {
    forall i, j {:trigger ts[i], ts[j]} | 0 <= i < j < |ts| :: ts[i].uri != ts[j].uri
  }

  predicate IsRising(idx: seq<nat>) { forall a, b | 0 <= a < b < |idx| :: idx[a] < idx[b] }

  /** The local objects are those of these targets, in order. */
  lemma {:induction false} LocalTargets(t: Told, pending: seq<CreatedObject>, idx: seq<nat>,
                                        local: seq<CreatedObject>, jdx: seq<nat>) returns (at: seq<nat>)
    requires PendingPicked(pending, t.targets, idx) && LocalPicked(local, pending, jdx)
    requires IsRising(idx) && IsRising(jdx)
    ensures |at| == |jdx| && IsRising(at) && ArePlaced(t, local, at)
    ensures forall l | 0 <= l < |jdx| :: at[l] == idx[jdx[l]]
  {
    at := seq(|jdx|, l requires 0 <= l < |jdx| => assert local[l] == pending[jdx[l]]; idx[jdx[l]]);
    forall l | 0 <= l < |jdx| ensures at[l] < |t.targets| && local[l].uri == t.targets[at[l]].uri {
      assert local[l] == pending[jdx[l]];
    }
    forall a, b | 0 <= a < b < |at| ensures at[a] < at[b] {
      assert jdx[a] < jdx[b];
    }
  }

  ghost predicate ArePlaced(t: Told, local: seq<CreatedObject>, at: seq<nat>) {
    |at| == |local| && forall l | 0 <= l < |at| :: at[l] < |t.targets| && local[l].uri == t.targets[at[l]].uri
  }

  lemma {:induction false} BehindMeans(t: Told, local: seq<CreatedObject>, at: seq<nat>, l: nat)
    requires ArePlaced(t, local, at) && IsRising(at) && l < |at|
    requires DistinctTargets(t.targets) && forall a | a in t.log :: a.uri in Uris(local)
    ensures BehindStop(local, t.log, l) <==> BehindTarget(t, at[l])
  {
    if EndsIn401(t.log) {
      var u := t.log[|t.log| - 1].uri;
      var m :| 0 <= m < |local| && local[m].uri == u;
      if m < l {
        assert at[m] < at[l] && t.targets[at[m]].uri == u;
      } else {
        NotBefore(t, local, at, l, m);
      }
    }
  }

  lemma {:induction false} NotBefore(t: Told, local: seq<CreatedObject>, at: seq<nat>, l: nat, m: nat)
    requires ArePlaced(t, local, at) && IsRising(at) && l <= m < |at| && DistinctTargets(t.targets)
    ensures forall j | 0 <= j < at[l] :: t.targets[j].uri != local[m].uri
    ensures forall j | 0 <= j < l :: local[j].uri != local[m].uri
  {
    assert at[l] <= at[m];
    forall j | 0 <= j < l ensures local[j].uri != local[m].uri {
      assert at[j] < at[m] && local[j].uri == t.targets[at[j]].uri;
    }
  }

  /** The restores are told of as they went, and the deletion's requests are those of the log. */
  ghost predicate IsTold(t: Told, p: Progress, l: Lists) {
    && |t.targets| == |t.outcomes| && DistinctTargets(t.targets)
    && RestoresSay(p, t.partial, t.rejected, t.targets, t.outcomes)
    && (l.failed != [] <==> t.failed || SomeNotRestored(t.rejected, t.outcomes))
  }

  ghost predicate IsPicked(t: Told, pending: seq<CreatedObject>, idx: seq<nat>) {
    && |t.targets| == |t.outcomes| && PendingPicked(pending, t.targets, idx)
    && Enumerates(idx, PendingAt(t.rejected, t.targets, t.outcomes))
  }

  lemma ReportedHas(es: seq<Entry>, objs: seq<CreatedObject>, reason: Reason, k: nat)
    requires k < |objs|
    ensures ObjectEntry(objs[k], reason) in es + Reported(objs, reason)
  {
    assert Reported(objs, reason)[k] == ObjectEntry(objs[k], reason);
  }

  lemma {:induction false} PickedAreDistinct(t: Told, pending: seq<CreatedObject>, idx: seq<nat>)
    requires IsPicked(t, pending, idx) && DistinctTargets(t.targets)
    ensures DistinctUris(pending) && Untried(pending)
  {}

  lemma {:induction false} LocalAreUntried(local: seq<CreatedObject>, objs: seq<CreatedObject>, idx: seq<nat>)
    requires LocalPicked(local, objs, idx) && Untried(objs) && DistinctUris(objs)
    requires IsRising(idx)
    ensures Untried(local) && DistinctUris(local)
  {}

  /** The reason for a local object is that of its target. */
  lemma {:induction false} ReasonMeans(t: Told, pending: seq<CreatedObject>, idx: seq<nat>,
                                       local: seq<CreatedObject>, jdx: seq<nat>, l: nat)
    requires PendingPicked(pending, t.targets, idx) && LocalPicked(local, pending, jdx) && l < |jdx|
    requires BehindStop(local, t.log, l) <==> BehindTarget(t, idx[jdx[l]])
    ensures local[l] == ObjectFor(t.targets[idx[jdx[l]]])
    ensures DeletionVerdict(t, idx[jdx[l]])
            == if GoneIn(t.log, local[l].uri) then ToDeleted else ToFailed(LeftReason(local, t.log, l))
  {
    assert local[l] == pending[jdx[l]];
  }

  /** What the deletion of the local objects reports of the l-th. */
  lemma {:induction false} LocalVerdict(t: Told, pending: seq<CreatedObject>, idx: seq<nat>,
                                        local: seq<CreatedObject>, jdx: seq<nat>, l: nat,
                                        deleted: seq<Entry>, failed: seq<Entry>)
    requires PendingPicked(pending, t.targets, idx) && LocalPicked(local, pending, jdx) && l < |jdx|
    requires BehindStop(local, t.log, l) <==> BehindTarget(t, idx[jdx[l]])
    requires if GoneIn(t.log, local[l].uri) then DeletedEntry(local[l]) in deleted
             else LeftEntry(local, t.log, l) in failed
    ensures var i := idx[jdx[l]];
            match DeletionVerdict(t, i)
            case ToFailed(reason) => EntryFor(t.targets[i], reason) in failed
            case _ => DeletionVerdict(t, i) == ToDeleted && EntryFor(t.targets[i], NoReason) in deleted
  {
    ReasonMeans(t, pending, idx, local, jdx, l);
    var i := idx[jdx[l]];
    if GoneIn(t.log, local[l].uri) {
      assert DeletedEntry(local[l]) == EntryFor(t.targets[i], NoReason);
    } else {
      assert LeftEntry(local, t.log, l) == EntryFor(t.targets[i], LeftReason(local, t.log, l));
    }
  }

  /** What becomes of the l-th local object. */
  lemma {:induction false} LocalToDeletion(t: Told, pending: seq<CreatedObject>, idx: seq<nat>,
                                           local: seq<CreatedObject>, jdx: seq<nat>, l: nat, delete: DeleteAnswers,
                                           failed: seq<Entry>)
    requires IsPicked(t, pending, idx) && DistinctTargets(t.targets) && l < |jdx| && LocalPicked(local, pending, jdx)
    requires IsRising(jdx)
    requires var r := DeleteRounds(local, [], Uris(local), delete);
             t.log == r.log && AllExplained(r.next, r.rejected) && failed == FailedEntries(r.next, r.rejected)
    ensures var i, r := idx[jdx[l]], DeleteRounds(local, [], Uris(local), delete);
            match DeletionVerdict(t, i)
            case ToFailed(reason) => EntryFor(t.targets[i], reason) in failed
            case _ => DeletionVerdict(t, i) == ToDeleted && EntryFor(t.targets[i], NoReason) in r.deleted
  {
    PickedAreDistinct(t, pending, idx);
    LocalAreUntried(local, pending, jdx);
    DeletionFollowsLog(local, Uris(local), delete);
    var at := LocalTargets(t, pending, idx, local, jdx);
    BehindMeans(t, local, at, l);
    LocalVerdict(t, pending, idx, local, jdx, l, DeleteRounds(local, [], Uris(local), delete).deleted, failed);
  }

  /** The gate was open: what becomes of the k-th pending object. */
  lemma {:induction false} TakenToDeletion(t: Told, origin: string -> Origin, pending: seq<CreatedObject>,
                                           idx: seq<nat>, k: nat, delete: DeleteAnswers, failed: seq<Entry>)
    requires IsPicked(t, pending, idx) && DistinctTargets(t.targets) && k < |idx|
    requires var kept := KeepAll(pending, t.sid, origin);
             var r := DeleteRounds(kept.local, [], Uris(kept.local), delete);
             t.log == r.log && AllExplained(r.next, r.rejected) && failed == FailedEntries(r.next, r.rejected)
    ensures var i, kept := idx[k], KeepAll(pending, t.sid, origin);
            var r := DeleteRounds(kept.local, [], Uris(kept.local), delete);
            && i < |t.targets|
            && (OriginRefused(t, origin, i) ==> EntryFor(t.targets[i], NotDeleted(Unauthorized)) in kept.failed)
            && (!OriginRefused(t, origin, i) ==>
                  match origin(t.targets[i].uri)
                  case OriginFailed(err) =>
                    if err.Unauthorized? then EntryFor(t.targets[i], NotDeleted(err)) in kept.failed
                    else EntryFor(t.targets[i], OriginUnread(err)) in kept.created
                  case System(src) =>
                    if t.sid == "" || src != t.sid then EntryFor(t.targets[i], OtherSystem(src)) in kept.created
                    else match DeletionVerdict(t, i)
                         case ToFailed(reason) => EntryFor(t.targets[i], reason) in failed
                         case _ => DeletionVerdict(t, i) == ToDeleted && EntryFor(t.targets[i], NoReason) in r.deleted)
  {
    var i, kept := idx[k], KeepAll(pending, t.sid, origin);
    var r := DeleteRounds(kept.local, [], Uris(kept.local), delete);
    var jdx := KeepIsRight(pending, t.sid, origin);
    assert KeepPlaced(kept, pending, t.sid, origin, k) && pending[k] == ObjectFor(t.targets[i]);
    OriginStoppedMeans(t, origin, pending, idx, k);
    if IsLocal(pending, t.sid, origin, k) {
      var l := IndexOf(jdx, LocalAt(pending, t.sid, origin), k);
      LocalToDeletion(t, pending, idx, kept.local, jdx, l, delete, failed);
    }
  }

  /** The request's system, and the log, are those of this rollback. */
  predicate IsOf(t: Told, l: Lists, p: Progress, request: string, deleteCreated: bool, w: World) {
    && t.deleteCreated == deleteCreated && t.sid == SystemOf(request)
    && var k := KeepAll(p.pending, t.sid, w.origin);
    t.log == if GateOpen(l, p.pending, p.partial, p.rejected, deleteCreated)
             then DeleteRounds(k.local, [], Uris(k.local), w.delete).log else []
  }

  /** A created object is reported as its verdict says. */
  lemma {:induction false} CreatedPlaced(t: Told, p: Progress, l: Lists, request: string, deleteCreated: bool,
                                         w: World, idx: seq<nat>, k: nat)
    requires IsTold(t, p, l) && IsPicked(t, p.pending, idx) && k < |idx| && Fresh(p.pending)
    requires IsOf(t, l, p, request, deleteCreated, w)
    ensures idx[k] < |t.targets|
    ensures IsAt(Settle(l, p.pending, p.partial, p.rejected, request, deleteCreated, w), t.targets[idx[k]],
                 CreatedVerdict(t, w.origin, idx[k]))
  {
    var i, pending := idx[k], p.pending;
    assert pending[k] == ObjectFor(t.targets[i]);
    if !deleteCreated {
      ReportedHas(l.created, pending, CreatedKept, k);
    } else if p.rejected.Some? {
      ReportedHas(l.failed, pending, NotDeleted(p.rejected.value), k);
    } else if l.failed != [] {
      ReportedHas(l.created, pending, CreatedRestoreErr, k);
    } else if p.partial {
      ReportedHas(l.created, pending, CreatedSubObjects, k);
    } else {
      GatePassed(t, p, l, request, w, idx, k);
    }
  }

  lemma {:induction false} GatePassed(t: Told, p: Progress, l: Lists, request: string, w: World, idx: seq<nat>, k: nat)
    requires IsTold(t, p, l) && IsPicked(t, p.pending, idx) && k < |idx| && Fresh(p.pending)
    requires IsOf(t, l, p, request, true, w) && p.rejected.None? && l.failed == [] && !p.partial
    ensures idx[k] < |t.targets|
    ensures IsAt(Settle(l, p.pending, p.partial, p.rejected, request, true, w), t.targets[idx[k]],
                 CreatedVerdict(t, w.origin, idx[k]))
  {
    var kept := KeepAll(p.pending, t.sid, w.origin);
    KeptAreLocal(p.pending, t.sid, w.origin);
    LeftAreExplained(kept.local, [], Uris(kept.local), w.delete);
    var r := DeleteRounds(kept.local, [], Uris(kept.local), w.delete);
    TakenToDeletion(t, w.origin, p.pending, idx, k, w.delete, FailedEntries(r.next, r.rejected));
  }

  /** The object was taken to the deletion. */
  predicate IsTaken(t: Told, origin: string -> Origin, i: nat)
    requires i < |t.targets| == |t.outcomes|
  {
    && IsPending(t.rejected, t.targets, t.outcomes, i) && DeletionOpen(t) && !OriginRefused(t, origin, i)
    && t.sid != "" && origin(t.targets[i].uri) == System(t.sid)
  }

  /** The option is on, and everything else of the transport was rolled back. */
  predicate DeletionOpen(t: Told)
    requires |t.targets| == |t.outcomes|
  {
    && t.deleteCreated && !Stopped(t.rejected, t.outcomes, |t.outcomes|)
    && !t.failed && !SomeNotRestored(t.rejected, t.outcomes)
    && !t.partial && !SomeSubObject(t.rejected, t.targets, t.outcomes)
  }

  function Taken(t: Told, origin: string -> Origin): (uris: set<string>)
    requires |t.targets| == |t.outcomes|
    ensures forall i | 0 <= i < |t.targets| && IsTaken(t, origin, i) :: t.targets[i].uri in uris
    ensures forall u | u in uris :: exists i :: 0 <= i < |t.targets| && IsTaken(t, origin, i) && t.targets[i].uri == u
  {
    set i | 0 <= i < |t.targets| && IsTaken(t, origin, i) :: t.targets[i].uri
  }

  lemma {:induction false} LocalAreTaken(t: Told, origin: string -> Origin, pending: seq<CreatedObject>, idx: seq<nat>)
    requires IsPicked(t, pending, idx) && DeletionOpen(t)
    ensures Uris(KeepAll(pending, t.sid, origin).local) == Taken(t, origin)
  {
    var local := KeepAll(pending, t.sid, origin).local;
    var jdx := KeepIsRight(pending, t.sid, origin);
    forall u | u in Uris(local) ensures u in Taken(t, origin) {
      var l :| 0 <= l < |local| && local[l].uri == u;
      LocalIsTaken(t, origin, pending, idx, jdx, l);
    }
    forall u | u in Taken(t, origin) ensures u in Uris(local) {
      var i :| 0 <= i < |t.targets| && IsTaken(t, origin, i) && t.targets[i].uri == u;
      TakenIsLocal(t, origin, pending, idx, jdx, i);
    }
  }

  lemma {:induction false} TakenIsLocal(t: Told, origin: string -> Origin, pending: seq<CreatedObject>, idx: seq<nat>,
                                        jdx: seq<nat>, i: nat)
    requires IsPicked(t, pending, idx) && i < |t.targets| && IsTaken(t, origin, i)
    requires KeepSays(KeepAll(pending, t.sid, origin), pending, t.sid, origin, jdx)
    ensures t.targets[i].uri in Uris(KeepAll(pending, t.sid, origin).local)
  {
    var local := KeepAll(pending, t.sid, origin).local;
    var k := IndexOf(idx, PendingAt(t.rejected, t.targets, t.outcomes), i);
    OriginStoppedMeans(t, origin, pending, idx, k);
    assert pending[k] == ObjectFor(t.targets[i]) && IsLocal(pending, t.sid, origin, k);
    var l := IndexOf(jdx, LocalAt(pending, t.sid, origin), k);
    assert local[l].uri == t.targets[i].uri;
  }

  lemma {:induction false} LocalIsTaken(t: Told, origin: string -> Origin, pending: seq<CreatedObject>, idx: seq<nat>,
                                        jdx: seq<nat>, l: nat)
    requires IsPicked(t, pending, idx) && DeletionOpen(t)
    requires var k := KeepAll(pending, t.sid, origin); KeepSays(k, pending, t.sid, origin, jdx) && l < |k.local|
    ensures KeepAll(pending, t.sid, origin).local[l].uri in Taken(t, origin)
  {
    var k := jdx[l];
    assert k in LocalAt(pending, t.sid, origin) && IsLocal(pending, t.sid, origin, k);
    assert idx[k] in PendingAt(t.rejected, t.targets, t.outcomes);
    OriginStoppedMeans(t, origin, pending, idx, k);
    assert pending[k] == ObjectFor(t.targets[idx[k]]);
    assert IsTaken(t, origin, idx[k]);
  }

  /** The delete requests of a rollback are for objects taken to the deletion, and answered by the server. */
  lemma {:induction false} RequestsAreForTaken(t: Told, p: Progress, l: Lists, request: string, deleteCreated: bool,
                                               w: World, idx: seq<nat>)
    requires IsTold(t, p, l) && IsPicked(t, p.pending, idx) && IsOf(t, l, p, request, deleteCreated, w)
    ensures Honest(t.log, Taken(t, w.origin), w.delete) && forall a | a in t.log :: a.uri in Taken(t, w.origin)
  {
    if GateOpen(l, p.pending, p.partial, p.rejected, deleteCreated) {
      var local := KeepAll(p.pending, t.sid, w.origin).local;
      var jdx := KeepIsRight(p.pending, t.sid, w.origin);
      PickedAreDistinct(t, p.pending, idx);
      LocalAreUntried(local, p.pending, jdx);
      DeletionFollowsLog(local, Uris(local), w.delete);
      LocalAreTaken(t, w.origin, p.pending, idx);
    }
  }

  /** Settling only adds to the lists. */
  lemma {:induction false} SettleGrows(l: Lists, pending: seq<CreatedObject>, partial: bool, rejected: Option<Error>,
                                       request: string, deleteCreated: bool, w: World, tg: Target, v: Verdict)
    requires Fresh(pending) && IsAt(l, tg, v)
    ensures IsAt(Settle(l, pending, partial, rejected, request, deleteCreated, w), tg, v)
  {}

  /** Every unit is reported as its verdict says. */
  lemma {:induction false} UnitPlaced(t: Told, p: Progress, l: Lists, request: string, deleteCreated: bool, w: World,
                                      idx: seq<nat>, i: nat)
    requires IsTold(t, p, l) && IsPicked(t, p.pending, idx) && Fresh(p.pending) && i < |t.targets|
    requires IsOf(t, l, p, request, deleteCreated, w) && AllRestorePlaced(p, t.rejected, t.targets, t.outcomes)
    requires forall e | e in p.restored :: e in l.restored
    requires forall e | e in p.failed :: e in l.failed
    requires forall e | e in p.created :: e in l.created
    ensures IsAt(Settle(l, p.pending, p.partial, p.rejected, request, deleteCreated, w), t.targets[i],
                 VerdictOf(t, w.origin, i))
  {
    if IsPending(t.rejected, t.targets, t.outcomes, i) {
      var k := IndexOf(idx, PendingAt(t.rejected, t.targets, t.outcomes), i);
      CreatedPlaced(t, p, l, request, deleteCreated, w, idx, k);
    } else {
      assert RestorePlaced(p, t.rejected, t.targets, t.outcomes, i);
      var v := VerdictOf(t, w.origin, i);
      assert IsAt(l, t.targets[i], v);
      SettleGrows(l, p.pending, p.partial, p.rejected, request, deleteCreated, w, t.targets[i], v);
    }
  }
}
