/** Resolving the entries of a transport to the units of source a rollback restores
    (adt/rollback.go: rollbackTargets). What each lookup answers is arbitrary. */
module RollbackTargets {
  import opened RollbackReport
  import opened Wrappers

  datatype TransportObject = TransportObject(pgmid: string, typ: string, name: string)

  const CORR := "CORR"
  const LIMU := "LIMU"

  /** rollbackTarget: a unit of source; tadir says it is an R3TR object. */
  datatype Target = Target(typ: string, name: string, uri: string, tadir: bool)

  /** The answer of resolveRollbackTarget. */
  datatype Lookup = Resolved(target: Target) | NoUnit(reason: string) | LookupFailed(err: Error)

  function TargetIds(ts: seq<Target>): (ids: seq<Id>)
    ensures |ids| == |ts| && forall i | 0 <= i < |ts| :: ids[i] == UnitOf(ts[i].uri)
  {
    seq(|ts|, i requires 0 <= i < |ts| => UnitOf(ts[i].uri))
  }

  lemma TargetIdsSnoc(ts: seq<Target>, t: Target)
    ensures TargetIds(ts + [t]) == TargetIds(ts) + [UnitOf(t.uri)]
    ensures multiset(TargetIds(ts + [t])) == multiset(TargetIds(ts)) + multiset({UnitOf(t.uri)})
  {
    var id := UnitOf(t.uri);
    assert multiset(TargetIds(ts) + [id]) == multiset(TargetIds(ts)) + multiset{id};
    assert multiset{id} == multiset({id});
  }

  datatype Resolution = Resolution(targets: seq<Target>, skipped: seq<Entry>, failed: seq<Entry>,
                                   partial: bool, rejected: Option<Error>, asked: seq<nat>)

  /** One transport entry. */
  function ResolveOne(r: Resolution, i: nat, obj: TransportObject, answer: Lookup): Resolution {
    var id := OfEntry(i);
    if obj.pgmid == CORR then r
    else if r.rejected.Some? then
      r.(failed := r.failed + [Entry(id, obj.typ, obj.name, NotAttempted(r.rejected.value))])
    else
      var r := r.(asked := r.asked + [i]);
      match answer
      case LookupFailed(err) =>
        r.(rejected := if err.Unauthorized? then Some(err) else None, partial := r.partial || obj.pgmid == LIMU,
           failed := r.failed + [Entry(id, obj.typ, obj.name, Resolving(err))])
      case NoUnit(reason) =>
        r.(partial := r.partial || obj.pgmid == LIMU,
           skipped := r.skipped + [Entry(id, obj.typ, obj.name, NoSource(reason))])
      case Resolved(tg) =>
        if UnitOf(tg.uri) in TargetIds(r.targets) then r else r.(targets := r.targets + [tg])
  }

  function Resolve(objects: seq<TransportObject>, lookup: nat -> Lookup): Resolution {
    if objects == [] then Resolution([], [], [], false, None, []) else
    var n := |objects| - 1;
    ResolveOne(Resolve(objects[..n], lookup), n, objects[n], lookup(n))
  }

  method FindTargets(lookup: nat -> Lookup, objects: seq<TransportObject>, result: Result)
    returns (targets: seq<Target>, partial: bool, rejected: Option<Error>, asked: seq<nat>)
    modifies result
    ensures var r := Resolve(objects, lookup);
            && Resolution(targets, r.skipped, r.failed, partial, rejected, asked) == r
            && result.View() == old(result.View()).(skipped := old(result.skipped) + r.skipped,
                                                    failed := old(result.failed) + r.failed)
  {
    targets, partial, rejected, asked := [], false, None, [];
    var seen: set<Id> := {};
    ghost var skipped, failed: seq<Entry> := [], [];
    for i := 0 to |objects|
      invariant Resolution(targets, skipped, failed, partial, rejected, asked) == Resolve(objects[..i], lookup)
      invariant forall id :: id in seen <==> id in TargetIds(targets)
      invariant result.View() == old(result.View()).(skipped := old(result.skipped) + skipped,
                                                     failed := old(result.failed) + failed)
    {
      var obj := objects[i];
      assert objects[..i + 1][..i] == objects[..i];
      if obj.pgmid == CORR {
        continue;
      }
      if rejected.Some? {
        var e := Entry(OfEntry(i), obj.typ, obj.name, NotAttempted(rejected.value));
        result.failed := result.failed + [e];
        failed := failed + [e];
        continue;
      }
      asked := asked + [i];
      match lookup(i)
      case LookupFailed(err) =>
        if err.Unauthorized? {
          rejected := Some(err);
        }
        partial := partial || obj.pgmid == LIMU;
        var e := Entry(OfEntry(i), obj.typ, obj.name, Resolving(err));
        result.failed := result.failed + [e];
        failed := failed + [e];
      case NoUnit(reason) =>
        partial := partial || obj.pgmid == LIMU;
        var e := Entry(OfEntry(i), obj.typ, obj.name, NoSource(reason));
        result.skipped := result.skipped + [e];
        skipped := skipped + [e];
      case Resolved(tg) =>
        if UnitOf(tg.uri) !in seen {
          TargetIdsSnoc(targets, tg);
          seen := seen + {UnitOf(tg.uri)};
          targets := targets + [tg];
        }
    }
    assert objects[..|objects|] == objects;
  }

  /** An entry is looked up unless it is a release marker or a lookup before it was answered 401. */
  predicate Asked(objects: seq<TransportObject>, lookup: nat -> Lookup, i: nat)
    requires i < |objects|
  {
    objects[i].pgmid != CORR &&
    forall j {:trigger objects[j]} | 0 <= j < i && objects[j].pgmid != CORR :: lookup(j) != LookupFailed(Unauthorized)
  }

  /** What the result must report about one entry: nothing for a release marker, the unit it leads
      to, or else the entry itself. */
  function IdOf(objects: seq<TransportObject>, lookup: nat -> Lookup, i: nat): set<Id>
    requires i < |objects|
  {
    if objects[i].pgmid == CORR then {}
    else if Asked(objects, lookup, i) && lookup(i).Resolved? then {UnitOf(lookup(i).target.uri)}
    else {OfEntry(i)}
  }

  function ToReport(objects: seq<TransportObject>, lookup: nat -> Lookup): set<Id> {
    if objects == [] then {} else
    ToReport(objects[..|objects| - 1], lookup) + IdOf(objects, lookup, |objects| - 1)
  }

  lemma {:induction false} ToReportMeans(objects: seq<TransportObject>, lookup: nat -> Lookup)
    ensures forall id ::
              id in ToReport(objects, lookup) <==> exists i :: 0 <= i < |objects| && id in IdOf(objects, lookup, i)
  {
    if objects != [] {
      var n := |objects| - 1;
      ToReportMeans(objects[..n], lookup);
      forall i | 0 <= i < n ensures IdOf(objects[..n], lookup, i) == IdOf(objects, lookup, i) {
        AskedOfPrefix(objects, lookup, n, i);
      }
    }
  }

  lemma AskedOfPrefix(objects: seq<TransportObject>, lookup: nat -> Lookup, n: nat, i: nat)
    requires i < n <= |objects|
    ensures Asked(objects[..n], lookup, i) == Asked(objects, lookup, i)
  {
    assert forall j | 0 <= j <= i :: objects[..n][j] == objects[j];
  }

  /** After the loop a 401 is known exactly when one was answered. */
  lemma {:induction false} RejectedExactly(objects: seq<TransportObject>, lookup: nat -> Lookup)
    ensures var r := Resolve(objects, lookup);
            && (r.rejected.Some? ==> r.rejected.value == Unauthorized)
            && (r.rejected.None? <==>
                  forall j {:trigger objects[j]} | 0 <= j < |objects| && objects[j].pgmid != CORR ::
                    lookup(j) != LookupFailed(Unauthorized))
  {
    if objects != [] {
      var n := |objects| - 1;
      RejectedExactly(objects[..n], lookup);
      assert forall j | 0 <= j < n :: objects[..n][j] == objects[j];
      if Resolve(objects[..n], lookup).rejected.None? {
        assert objects[n].pgmid != CORR && lookup(n) == LookupFailed(Unauthorized)
               ==> Resolve(objects, lookup).rejected.Some?;
      } else {
        var j :| 0 <= j < n && objects[..n][j].pgmid != CORR && lookup(j) == LookupFailed(Unauthorized);
        assert objects[j].pgmid != CORR;
      }
    }
  }

  /** Exactly the entries Asked says are looked up. */
  lemma {:induction false} AskedExactly(objects: seq<TransportObject>, lookup: nat -> Lookup)
    ensures forall i :: i in Resolve(objects, lookup).asked <==> 0 <= i < |objects| && Asked(objects, lookup, i)
  {
    if objects != [] {
      var n := |objects| - 1;
      AskedExactly(objects[..n], lookup);
      RejectedExactly(objects[..n], lookup);
      assert forall j | 0 <= j < n :: objects[..n][j] == objects[j];
      forall i | 0 <= i < n ensures Asked(objects[..n], lookup, i) == Asked(objects, lookup, i) {
        AskedOfPrefix(objects, lookup, n, i);
      }
    }
  }

  /** The lookups are in order, and only the last of them can have been answered 401. */
  predicate StopsAt401(asked: seq<nat>, n: nat, lookup: nat -> Lookup, rejected: bool) {
    && (forall i | 0 <= i < |asked| :: asked[i] < n)
    && (forall i, j | 0 <= i < j < |asked| :: asked[i] < asked[j])
    && (forall i | 0 <= i < |asked| && (i < |asked| - 1 || !rejected) :: lookup(asked[i]) != LookupFailed(Unauthorized))
  }

  /** Nothing is sent after a 401. */
  lemma {:induction false} LookupsStopAt401(objects: seq<TransportObject>, lookup: nat -> Lookup)
    ensures var r := Resolve(objects, lookup); StopsAt401(r.asked, |objects|, lookup, r.rejected.Some?)
  {
    if objects != [] {
      var n := |objects| - 1;
      LookupsStopAt401(objects[..n], lookup);
      var before, after := Resolve(objects[..n], lookup), Resolve(objects, lookup);
      if after.asked != before.asked {
        OneMoreLookup(before.asked, n, lookup, after.rejected.Some?);
      }
    }
  }

  lemma OneMoreLookup(asked: seq<nat>, n: nat, lookup: nat -> Lookup, rejected: bool)
    requires StopsAt401(asked, n, lookup, false) && (lookup(n) == LookupFailed(Unauthorized) ==> rejected)
    ensures StopsAt401(asked + [n], n + 1, lookup, rejected)
  {}

  /** The entries that lead to no unit. */
  predicate IsSkipped(objects: seq<TransportObject>, lookup: nat -> Lookup, i: nat)
    requires i < |objects|
  {
    Asked(objects, lookup, i) && lookup(i).NoUnit?
  }

  /** The entries whose lookup failed, or was not tried after a 401. */
  predicate IsFailed(objects: seq<TransportObject>, lookup: nat -> Lookup, i: nat)
    requires i < |objects|
  {
    objects[i].pgmid != CORR && (Asked(objects, lookup, i) ==> lookup(i).LookupFailed?)
  }

  /** Where the entries that do not resolve are reported. */
  ghost predicate EntriesPlaced(objects: seq<TransportObject>, lookup: nat -> Lookup, skipped: seq<Entry>,
                                failed: seq<Entry>)
  {
    && (forall i: nat {:trigger HasId(skipped, OfEntry(i))} ::
          HasId(skipped, OfEntry(i)) <==> i < |objects| && IsSkipped(objects, lookup, i))
    && (forall i: nat {:trigger HasId(failed, OfEntry(i))} ::
          HasId(failed, OfEntry(i)) <==> i < |objects| && IsFailed(objects, lookup, i))
  }

  lemma {:induction false} ResolutionPlacesEntries(objects: seq<TransportObject>, lookup: nat -> Lookup)
    ensures var r := Resolve(objects, lookup);
            OnlyEntries(r.skipped) && OnlyEntries(r.failed) && EntriesPlaced(objects, lookup, r.skipped, r.failed)
  {
    if objects != [] {
      var n := |objects| - 1;
      var before, after := Resolve(objects[..n], lookup), Resolve(objects, lookup);
      ResolutionPlacesEntries(objects[..n], lookup);
      AskedNow(objects, lookup, n);
      forall i: nat
        ensures HasId(after.skipped, OfEntry(i)) <==> i < |objects| && IsSkipped(objects, lookup, i)
        ensures HasId(after.failed, OfEntry(i)) <==> i < |objects| && IsFailed(objects, lookup, i)
      {
        if i < n {
          AskedOfPrefix(objects, lookup, n, i);
        }
        PlacedOneMore(before, n, objects[n], lookup(n), i);
      }
    }
  }

  lemma {:induction false} AskedNow(objects: seq<TransportObject>, lookup: nat -> Lookup, n: nat)
    requires n == |objects| - 1
    ensures Asked(objects, lookup, n) <==> objects[n].pgmid != CORR && Resolve(objects[..n], lookup).rejected.None?
  {
    RejectedExactly(objects[..n], lookup);
    assert forall j | 0 <= j < n :: objects[..n][j] == objects[j];
  }

  lemma PlacedOneMore(r: Resolution, n: nat, obj: TransportObject, answer: Lookup, i: nat)
    ensures var r', asked := ResolveOne(r, n, obj, answer), obj.pgmid != CORR && r.rejected.None?;
            && (HasId(r'.skipped, OfEntry(i)) <==> HasId(r.skipped, OfEntry(i)) || (i == n && asked && answer.NoUnit?))
            && (HasId(r'.failed, OfEntry(i)) <==>
                  HasId(r.failed, OfEntry(i)) || (i == n && obj.pgmid != CORR && (asked ==> answer.LookupFailed?)))
  {
    if obj.pgmid != CORR {
      if r.rejected.Some? {
        HasIdSnoc(r.failed, Entry(OfEntry(n), obj.typ, obj.name, NotAttempted(r.rejected.value)), OfEntry(i));
      } else {
        match answer
        case LookupFailed(err) => HasIdSnoc(r.failed, Entry(OfEntry(n), obj.typ, obj.name, Resolving(err)), OfEntry(i));
        case NoUnit(reason) => HasIdSnoc(r.skipped, Entry(OfEntry(n), obj.typ, obj.name, NoSource(reason)), OfEntry(i));
        case Resolved(tg) =>
      }
    }
  }

  /** An entry of a part of an object that does not resolve: part of the transport is left as it is. */
  predicate IsPartial(objects: seq<TransportObject>, lookup: nat -> Lookup, i: nat)
    requires i < |objects|
  {
    objects[i].pgmid == LIMU && Asked(objects, lookup, i) && !lookup(i).Resolved?
  }

  predicate SomePartial(objects: seq<TransportObject>, lookup: nat -> Lookup) {
    exists i :: 0 <= i < |objects| && IsPartial(objects, lookup, i)
  }

  /** partial is set exactly when an entry of a part was skipped, or its lookup failed. */
  lemma {:induction false} PartialExactly(objects: seq<TransportObject>, lookup: nat -> Lookup)
    ensures Resolve(objects, lookup).partial <==> SomePartial(objects, lookup)
  {
    if objects != [] {
      var n := |objects| - 1;
      PartialExactly(objects[..n], lookup);
      AskedNow(objects, lookup, n);
      forall i | 0 <= i < n ensures IsPartial(objects[..n], lookup, i) == IsPartial(objects, lookup, i) {
        AskedOfPrefix(objects, lookup, n, i);
      }
      assert SomePartial(objects, lookup) <==> SomePartial(objects[..n], lookup) || IsPartial(objects, lookup, n);
    }
  }

  predicate SomeFailed(objects: seq<TransportObject>, lookup: nat -> Lookup) {
    exists i :: 0 <= i < |objects| && IsFailed(objects, lookup, i)
  }

  lemma {:induction false} FailedExactly(objects: seq<TransportObject>, lookup: nat -> Lookup)
    ensures Resolve(objects, lookup).failed != [] <==> SomeFailed(objects, lookup)
  {
    ResolutionPlacesEntries(objects, lookup);
    var failed := Resolve(objects, lookup).failed;
    if failed != [] {
      assert EntryIds(failed)[0] == OfEntry(failed[0].id.index);
      assert HasId(failed, OfEntry(failed[0].id.index));
    }
    if SomeFailed(objects, lookup) {
      var i :| 0 <= i < |objects| && IsFailed(objects, lookup, i);
      assert HasId(failed, OfEntry(i));
    }
  }

  predicate SomeRejected(objects: seq<TransportObject>, lookup: nat -> Lookup) {
    exists j {:trigger objects[j]} ::
      0 <= j < |objects| && objects[j].pgmid != CORR && lookup(j) == LookupFailed(Unauthorized)
  }

  /** What is reported about one entry, with its reason. */
  predicate EntryReported(objects: seq<TransportObject>, lookup: nat -> Lookup, skipped: seq<Entry>,
                          failed: seq<Entry>, i: nat)
    requires i < |objects|
  {
    var id, typ, name := OfEntry(i), objects[i].typ, objects[i].name;
    objects[i].pgmid != CORR ==>
      if !Asked(objects, lookup, i) then Entry(id, typ, name, NotAttempted(Unauthorized)) in failed
      else match lookup(i)
           case LookupFailed(err) => Entry(id, typ, name, Resolving(err)) in failed
           case NoUnit(reason) => Entry(id, typ, name, NoSource(reason)) in skipped
           case Resolved(_) => true
  }

  ghost predicate EntriesReported(objects: seq<TransportObject>, lookup: nat -> Lookup, skipped: seq<Entry>,
                                  failed: seq<Entry>)
  {
    forall i {:trigger EntryReported(objects, lookup, skipped, failed, i)} | 0 <= i < |objects| ::
      EntryReported(objects, lookup, skipped, failed, i)
  }

  lemma {:induction false} ResolutionReportsEntries(objects: seq<TransportObject>, lookup: nat -> Lookup)
    ensures var r := Resolve(objects, lookup); EntriesReported(objects, lookup, r.skipped, r.failed)
  {
    if objects != [] {
      var n := |objects| - 1;
      var before, after := Resolve(objects[..n], lookup), Resolve(objects, lookup);
      ResolutionReportsEntries(objects[..n], lookup);
      RejectedExactly(objects[..n], lookup);
      AskedNow(objects, lookup, n);
      forall i | 0 <= i < |objects| ensures EntryReported(objects, lookup, after.skipped, after.failed, i) {
        if i < n {
          AskedOfPrefix(objects, lookup, n, i);
          assert EntryReported(objects[..n], lookup, before.skipped, before.failed, i) && objects[..n][i] == objects[i];
        }
      }
    }
  }

  /** The indices of s, in order. */
  ghost predicate Enumerates(idx: seq<nat>, s: set<nat>) {
    (forall k, l | 0 <= k < l < |idx| :: idx[k] < idx[l]) && (forall i :: i in s <==> i in idx)
  }

  lemma {:induction false} EnumeratesSnoc(idx: seq<nat>, s: set<nat>, n: nat)
    requires Enumerates(idx, s) && forall i | i in s :: i < n
    ensures Enumerates(idx + [n], s + {n})
  {
    var more := idx + [n];
    forall k, l | 0 <= k < l < |more| ensures more[k] < more[l] {
      assert idx[k] in s;
    }
    forall i ensures i in s + {n} <==> i in more {
      assert more[|idx|] == n;
    }
  }

  predicate LeadsTo(objects: seq<TransportObject>, lookup: nat -> Lookup, i: nat, id: Id)
    requires i < |objects|
  {
    Asked(objects, lookup, i) && lookup(i).Resolved? && UnitOf(lookup(i).target.uri) == id
  }

  /** The entries that are the first to lead to their unit. */
  predicate IsFirst(objects: seq<TransportObject>, lookup: nat -> Lookup, i: nat)
    requires i < |objects|
  {
    && Asked(objects, lookup, i) && lookup(i).Resolved?
    && forall j | 0 <= j < i :: !LeadsTo(objects, lookup, j, UnitOf(lookup(i).target.uri))
  }

  function FirstAt(objects: seq<TransportObject>, lookup: nat -> Lookup): set<nat> {
    set i: nat | 0 <= i < |objects| && IsFirst(objects, lookup, i)
  }

  lemma {:induction false} FirstAtSnoc(objects: seq<TransportObject>, lookup: nat -> Lookup, n: nat)
    requires n == |objects| - 1
    ensures FirstAt(objects, lookup)
            == FirstAt(objects[..n], lookup) + (if IsFirst(objects, lookup, n) then {n} else {})
  {
    forall i | 0 <= i < n ensures IsFirst(objects[..n], lookup, i) == IsFirst(objects, lookup, i) {
      AskedOfPrefix(objects, lookup, n, i);
      forall j, id | 0 <= j < n ensures LeadsTo(objects[..n], lookup, j, id) == LeadsTo(objects, lookup, j, id) {
        AskedOfPrefix(objects, lookup, n, j);
      }
    }
  }

  lemma {:induction false} LeadsToATarget(objects: seq<TransportObject>, lookup: nat -> Lookup, id: Id)
    ensures id in TargetIds(Resolve(objects, lookup).targets) <==>
            exists j :: 0 <= j < |objects| && LeadsTo(objects, lookup, j, id)
  {
    ResolutionIsComplete(objects, lookup);
    ToReportMeans(objects, lookup);
    if j :| 0 <= j < |objects| && LeadsTo(objects, lookup, j, id) {
      assert id in IdOf(objects, lookup, j);
    }
    if id.OfUnit? && id in ToReport(objects, lookup) {
      var j :| 0 <= j < |objects| && id in IdOf(objects, lookup, j);
      assert LeadsTo(objects, lookup, j, id);
    }
  }

  ghost predicate TargetsPicked(targets: seq<Target>, lookup: nat -> Lookup, idx: seq<nat>) {
    && |idx| == |targets|
    && forall k {:trigger idx[k]} {:trigger targets[k]} | 0 <= k < |idx| :: lookup(idx[k]) == Resolved(targets[k])
  }

  /** The targets are, in transport order, what the first entry that leads to each unit resolves to. */
  lemma {:induction false} TargetsAreFirst(objects: seq<TransportObject>, lookup: nat -> Lookup)
    returns (idx: seq<nat>)
    ensures Enumerates(idx, FirstAt(objects, lookup))
    ensures TargetsPicked(Resolve(objects, lookup).targets, lookup, idx)
  {
    if objects == [] {
      idx := [];
    } else {
      var n := |objects| - 1;
      idx := TargetsAreFirst(objects[..n], lookup);
      FirstAtSnoc(objects, lookup, n);
      FirstNow(objects, lookup, n);
      if IsFirst(objects, lookup, n) {
        EnumeratesSnoc(idx, FirstAt(objects[..n], lookup), n);
        idx := idx + [n];
      }
    }
  }

  lemma {:induction false} FirstNow(objects: seq<TransportObject>, lookup: nat -> Lookup, n: nat)
    requires n == |objects| - 1
    ensures Resolve(objects, lookup).targets
            == Resolve(objects[..n], lookup).targets
               + (if IsFirst(objects, lookup, n) then [lookup(n).target] else [])
  {
    AskedNow(objects, lookup, n);
    if Asked(objects, lookup, n) && lookup(n).Resolved? {
      var id := UnitOf(lookup(n).target.uri);
      LeadsToATarget(objects[..n], lookup, id);
      forall j | 0 <= j < n ensures LeadsTo(objects[..n], lookup, j, id) == LeadsTo(objects, lookup, j, id) {
        AskedOfPrefix(objects, lookup, n, j);
      }
    }
  }

  /** The three lists of the resolution. */
  function ResolutionIds(r: Resolution): multiset<Id> {
    multiset(TargetIds(r.targets)) + Bag(r.skipped) + Bag(r.failed)
  }

  lemma {:induction false} IdsAreOfTheEntries(objects: seq<TransportObject>, lookup: nat -> Lookup, i: nat)
    requires OfEntry(i) in ToReport(objects, lookup)
    ensures i < |objects|
  {
    if objects != [] && OfEntry(i) in ToReport(objects[..|objects| - 1], lookup) {
      IdsAreOfTheEntries(objects[..|objects| - 1], lookup, i);
    }
  }

  /** Every entry that resolves leads to its unit, listed once however many lead to it; every other
      one is skipped or failed, once. */
  lemma {:induction false} ResolutionIsComplete(objects: seq<TransportObject>, lookup: nat -> Lookup)
    ensures ResolutionIds(Resolve(objects, lookup)) == multiset(ToReport(objects, lookup))
    ensures forall id ::
              id in TargetIds(Resolve(objects, lookup).targets) <==> id.OfUnit? && id in ToReport(objects, lookup)
  {
    if objects != [] {
      var n := |objects| - 1;
      var before := objects[..n];
      ResolutionIsComplete(before, lookup);
      ResolveOneIds(Resolve(before, lookup), n, objects[n], lookup(n));
      NewIdIsNew(objects, lookup, n);
      AddOne(ToReport(before, lookup), NewId(Resolve(before, lookup), n, objects[n], lookup(n)));
    }
  }

  /** What one more entry adds to the report. */
  lemma {:induction false} NewIdIsNew(objects: seq<TransportObject>, lookup: nat -> Lookup, n: nat)
    requires n == |objects| - 1
    requires forall id ::
               id in TargetIds(Resolve(objects[..n], lookup).targets)
               <==> id.OfUnit? && id in ToReport(objects[..n], lookup)
    ensures var before := ToReport(objects[..n], lookup);
            var added := NewId(Resolve(objects[..n], lookup), n, objects[n], lookup(n));
            before !! added && ToReport(objects, lookup) == before + added
  {
    AskedNow(objects, lookup, n);
    if OfEntry(n) in ToReport(objects[..n], lookup) {
      IdsAreOfTheEntries(objects[..n], lookup, n);
    }
    NewIdOf(Resolve(objects[..n], lookup), ToReport(objects[..n], lookup), n, objects[n], lookup(n));
  }

  lemma NewIdOf(r: Resolution, before: set<Id>, n: nat, obj: TransportObject, answer: Lookup)
    requires forall id :: id in TargetIds(r.targets) <==> id.OfUnit? && id in before
    requires OfEntry(n) !in before
    ensures var added := NewId(r, n, obj, answer);
            && before !! added
            && before + added == before + (if obj.pgmid == CORR then {}
                                           else if r.rejected.None? && answer.Resolved? then {UnitOf(answer.target.uri)}
                                           else {OfEntry(n)})
  {
    assert answer.Resolved? ==> UnitOf(answer.target.uri).OfUnit?;
  }

  /** The id a step adds to the lists, if any. */
  function NewId(r: Resolution, i: nat, obj: TransportObject, answer: Lookup): set<Id> {
    if obj.pgmid == CORR then {}
    else if r.rejected.Some? || !answer.Resolved? then {OfEntry(i)}
    else if UnitOf(answer.target.uri) in TargetIds(r.targets) then {}
    else {UnitOf(answer.target.uri)}
  }

  lemma AddOne(ids: set<Id>, more: set<Id>)
    requires ids !! more
    ensures multiset(ids + more) == multiset(ids) + multiset(more)
  {}

  lemma FailedOneMore(r: Resolution, e: Entry)
    ensures multiset(TargetIds(r.targets)) + Bag(r.skipped) + Bag(r.failed + [e])
            == ResolutionIds(r) + multiset({e.id})
  {
    EntryIdsSnoc(r.failed, e);
    assert multiset{e.id} == multiset({e.id});
  }

  lemma SkippedOneMore(r: Resolution, e: Entry)
    ensures multiset(TargetIds(r.targets)) + Bag(r.skipped + [e]) + Bag(r.failed)
            == ResolutionIds(r) + multiset({e.id})
  {
    EntryIdsSnoc(r.skipped, e);
    assert multiset{e.id} == multiset({e.id});
  }

  lemma TargetOneMore(r: Resolution, tg: Target)
    ensures multiset(TargetIds(r.targets + [tg])) + Bag(r.skipped) + Bag(r.failed)
            == ResolutionIds(r) + multiset({UnitOf(tg.uri)})
  {
    TargetIdsSnoc(r.targets, tg);
  }

  lemma ResolveOneIds(r: Resolution, i: nat, obj: TransportObject, answer: Lookup)
    ensures ResolutionIds(ResolveOne(r, i, obj, answer)) == ResolutionIds(r) + multiset(NewId(r, i, obj, answer))
    ensures forall id :: id in TargetIds(ResolveOne(r, i, obj, answer).targets) <==>
                           id in TargetIds(r.targets) || (id.OfUnit? && id in NewId(r, i, obj, answer))
  {
    var id := OfEntry(i);
    if obj.pgmid == CORR {
    } else if r.rejected.Some? {
      FailedOneMore(r, Entry(id, obj.typ, obj.name, NotAttempted(r.rejected.value)));
    } else {
      match answer
      case LookupFailed(err) => FailedOneMore(r, Entry(id, obj.typ, obj.name, Resolving(err)));
      case NoUnit(reason) => SkippedOneMore(r, Entry(id, obj.typ, obj.name, NoSource(reason)));
      case Resolved(tg) =>
        TargetOneMore(r, tg);
        TargetIdsSnoc(r.targets, tg);
    }
  }
}
