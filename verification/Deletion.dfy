/** Deleting the objects a transport created, in rounds (adt/rollback.go: deleteCreatedObjects).

    What a delete answers is an arbitrary function of the number of the attempt, of what still
    exists, and of the object. */
module Deletion {
  import opened RollbackReport
  import opened Wrappers

  /** createdObject. */
  datatype CreatedObject = CreatedObject(id: Id, typ: string, name: string, uri: string,
                                         lastErr: Option<Error>, notRetried: bool)

  type DeleteAnswers = (nat, set<string>, string) -> Option<Error>

  /** An object SAP does not find is gone: the state the deletion was to reach. */
  predicate Gone(err: Option<Error>) { err.None? || err.value.Missing? }

  datatype Attempt = Attempt(uri: string, err: Option<Error>)

  datatype Round = Round(next: seq<CreatedObject>, deleted: seq<Entry>, rejected: Option<Error>,
                         log: seq<Attempt>, alive: set<string>)

  function DeletedEntry(o: CreatedObject): Entry { Entry(o.id, o.typ, o.name, NoReason) }

  function DeleteOne(r: Round, o: CreatedObject, delete: DeleteAnswers): Round {
    if r.rejected.Some? then r.(next := r.next + [o.(notRetried := true)])
    else
      var err := delete(|r.log|, r.alive, o.uri);
      var log := r.log + [Attempt(o.uri, err)];
      if Gone(err) then r.(deleted := r.deleted + [DeletedEntry(o)], log := log, alive := r.alive - {o.uri})
      else r.(next := r.next + [o.(lastErr := err)], log := log,
              rejected := if err.value.Unauthorized? then err else None)
  }

  /** One round over the pending objects. */
  function DeleteRound(pending: seq<CreatedObject>, log: seq<Attempt>, alive: set<string>,
                       delete: DeleteAnswers): (r: Round)
    ensures |r.next| + |r.deleted| == |pending|
  {
    if pending == [] then Round([], [], None, log, alive) else
    var n := |pending| - 1;
    DeleteOne(DeleteRound(pending[..n], log, alive, delete), pending[n], delete)
  }

  /** Rounds until nothing is left, a round deletes nothing, or SAP answers 401. next is what is left. */
  function DeleteRounds(pending: seq<CreatedObject>, log: seq<Attempt>, alive: set<string>,
                        delete: DeleteAnswers): Round
    decreases |pending|
  {
    if pending == [] then Round([], [], None, log, alive) else
    var r := DeleteRound(pending, log, alive, delete);
    if r.rejected.Some? || r.deleted == [] then r else
    var rest := DeleteRounds(r.next, r.log, r.alive, delete);
    rest.(deleted := r.deleted + rest.deleted)
  }

  /** A reason that mentions the 401 has one to mention. */
  predicate Explained(o: CreatedObject, rejected: Option<Error>) {
    o.notRetried || o.lastErr.None? ==> rejected.Some?
  }

  function FailedEntry(o: CreatedObject, rejected: Option<Error>): Entry
    requires Explained(o, rejected)
  {
    Entry(o.id, o.typ, o.name,
          if o.lastErr.Some? && o.notRetried then DeleteNotRetried(o.lastErr.value, rejected.value)
          else if o.lastErr.Some? then DeleteFailed(o.lastErr.value)
          else DeleteNotAttempted(rejected.value))
  }

  function FailedEntries(os: seq<CreatedObject>, rejected: Option<Error>): (es: seq<Entry>)
    requires forall i | 0 <= i < |os| :: Explained(os[i], rejected)
    ensures |es| == |os| && forall i | 0 <= i < |es| :: es[i] == FailedEntry(os[i], rejected)
  {
    seq(|os|, i requires 0 <= i < |os| => FailedEntry(os[i], rejected))
  }

  predicate Fresh(os: seq<CreatedObject>) {
    forall i {:trigger os[i]} | 0 <= i < |os| :: !os[i].notRetried
  }

  predicate AllExplained(os: seq<CreatedObject>, rejected: Option<Error>) {
    forall i {:trigger os[i]} | 0 <= i < |os| :: Explained(os[i], rejected)
  }

  lemma {:induction false} RoundExplains(pending: seq<CreatedObject>, log: seq<Attempt>, alive: set<string>,
                                         delete: DeleteAnswers)
    requires Fresh(pending)
    ensures var r := DeleteRound(pending, log, alive, delete);
            AllExplained(r.next, r.rejected) && (r.rejected.None? ==> Fresh(r.next))
  {
    if pending != [] {
      RoundExplains(pending[..|pending| - 1], log, alive, delete);
    }
  }

  /** At the end every object left has an error of its own, or the 401 that kept it from being tried. */
  lemma {:induction false} LeftAreExplained(pending: seq<CreatedObject>, log: seq<Attempt>, alive: set<string>,
                                            delete: DeleteAnswers)
    requires Fresh(pending)
    ensures var r := DeleteRounds(pending, log, alive, delete); AllExplained(r.next, r.rejected)
    decreases |pending|
  {
    if pending != [] {
      RoundExplains(pending, log, alive, delete);
      var r := DeleteRound(pending, log, alive, delete);
      if r.rejected.None? && r.deleted != [] {
        LeftAreExplained(r.next, r.log, r.alive, delete);
      }
    }
  }

  method OneRound(pending: seq<CreatedObject>, log: seq<Attempt>, alive: set<string>, delete: DeleteAnswers,
                  result: Result)
    returns (next: seq<CreatedObject>, rejected: Option<Error>, log': seq<Attempt>, alive': set<string>,
             ghost deleted: seq<Entry>)
    modifies result`deleted
    ensures Round(next, deleted, rejected, log', alive') == DeleteRound(pending, log, alive, delete)
    ensures result.deleted == old(result.deleted) + deleted
  {
    next, rejected, log', alive', deleted := [], None, log, alive, [];
    for i := 0 to |pending|
      invariant Round(next, deleted, rejected, log', alive') == DeleteRound(pending[..i], log, alive, delete)
      invariant result.deleted == old(result.deleted) + deleted
    {
      var o := pending[i];
      assert pending[..i + 1][..i] == pending[..i];
      if rejected.Some? {
        next := next + [o.(notRetried := true)];
        continue;
      }
      var err := delete(|log'|, alive', o.uri);
      log' := log' + [Attempt(o.uri, err)];
      if err.Some? && err.value.Missing? {
        err := None;
      }
      if err.Some? {
        if err.value.Unauthorized? {
          rejected := err;
        }
        next := next + [o.(lastErr := err)];
        continue;
      }
      alive' := alive' - {o.uri};
      result.deleted := result.deleted + [DeletedEntry(o)];
      deleted := deleted + [DeletedEntry(o)];
    }
    assert pending[..|pending|] == pending;
  }

  /** The rounds end as all says: r has come there, or going on from what is left leads there. */
  ghost predicate Reached(all: Round, stop: bool, r: Round, delete: DeleteAnswers) {
    if stop || r.rejected.Some? then all == r else
    var rest := DeleteRounds(r.next, r.log, r.alive, delete);
    all == rest.(deleted := r.deleted + rest.deleted)
  }

  lemma {:induction false} RoundsEnd(all: Round, stop: bool, r: Round, delete: DeleteAnswers)
    requires Reached(all, stop, r, delete) && (r.next == [] || r.rejected.Some? || stop)
    ensures all == r
  {
    if !stop && r.rejected.None? {
      assert r.deleted + [] == r.deleted;
    }
  }

  lemma {:induction false} NextRound(all: Round, r: Round, delete: DeleteAnswers)
    requires r.next != [] && r.rejected.None? && Reached(all, false, r, delete)
    ensures var now := DeleteRound(r.next, r.log, r.alive, delete);
            Reached(all, |now.next| == |r.next|, now.(deleted := r.deleted + now.deleted), delete)
  {
    var now := DeleteRound(r.next, r.log, r.alive, delete);
    var rest := DeleteRounds(now.next, now.log, now.alive, delete);
    assert (r.deleted + now.deleted) + rest.deleted == r.deleted + (now.deleted + rest.deleted);
  }

  /** The rounds of deleteCreatedObjects; log lists the delete requests. */
  method DeleteInRounds(objs: seq<CreatedObject>, alive: set<string>, delete: DeleteAnswers, result: Result)
    returns (pending: seq<CreatedObject>, rejected: Option<Error>, log: seq<Attempt>)
    modifies result`deleted
    ensures var r := DeleteRounds(objs, [], alive, delete);
            && pending == r.next && rejected == r.rejected && log == r.log
            && result.deleted == old(result.deleted) + r.deleted
  {
    ghost var all := DeleteRounds(objs, [], alive, delete);
    pending, rejected, log := objs, None, [];
    var alive' := alive;
    ghost var deleted: seq<Entry> := [];
    var stop := false;
    while |pending| > 0 && rejected.None? && !stop
      invariant result.deleted == old(result.deleted) + deleted
      invariant Reached(all, stop, Round(pending, deleted, rejected, log, alive'), delete)
      decreases |pending|, if stop then 0 else 1
    {
      NextRound(all, Round(pending, deleted, rejected, log, alive'), delete);
      var before := pending;
      ghost var now;
      pending, rejected, log, alive', now := OneRound(pending, log, alive', delete, result);
      deleted := deleted + now;
      stop := |pending| == |before|;
    }
    RoundsEnd(all, stop, Round(pending, deleted, rejected, log, alive'), delete);
  }

  /** deleteCreatedObjects. */
  method DeleteCreatedObjects(objs: seq<CreatedObject>, alive: set<string>, delete: DeleteAnswers, result: Result)
    returns (log: seq<Attempt>)
    requires Fresh(objs)
    modifies result
    ensures var r := DeleteRounds(objs, [], alive, delete);
            && AllExplained(r.next, r.rejected) && log == r.log
            && result.View() == old(result.View()).(deleted := old(result.deleted) + r.deleted,
                                                    failed := old(result.failed) + FailedEntries(r.next, r.rejected))
    ensures DistinctUris(objs) && Untried(objs) ==>
              DeletionIsRight(objs, alive, delete, result.deleted[|old(result.deleted)|..],
                              result.failed[|old(result.failed)|..], log)
  {
    LeftAreExplained(objs, [], alive, delete);
    var pending, rejected;
    pending, rejected, log := DeleteInRounds(objs, alive, delete, result);
    ghost var entries := FailedEntries(pending, rejected);
    for i := 0 to |pending|
      invariant result.View()
                == old(result.View()).(deleted := result.deleted, failed := old(result.failed) + entries[..i])
      invariant result.deleted == old(result.deleted) + DeleteRounds(objs, [], alive, delete).deleted
    {
      result.failed := result.failed + [FailedEntry(pending[i], rejected)];
    }
    assert entries[..|pending|] == entries;
    if DistinctUris(objs) && Untried(objs) {
      assert result.deleted[|old(result.deleted)|..] == DeleteRounds(objs, [], alive, delete).deleted;
      assert result.failed[|old(result.failed)|..] == entries;
      DeletionFollowsLog(objs, alive, delete);
    }
  }

  // ---------------------------------------------------------------------------
  // Whatever the server answers
  // ---------------------------------------------------------------------------

  function ObjectIds(os: seq<CreatedObject>): (ids: seq<Id>)
    ensures |ids| == |os| && forall i | 0 <= i < |os| :: ids[i] == os[i].id
  {
    seq(|os|, i requires 0 <= i < |os| => os[i].id)
  }

  lemma ObjectIdsSnoc(os: seq<CreatedObject>, o: CreatedObject)
    ensures multiset(ObjectIds(os + [o])) == multiset(ObjectIds(os)) + multiset{o.id}
  {
    assert ObjectIds(os + [o]) == ObjectIds(os) + [o.id];
  }

  predicate KeepsIds(r: Round, pending: seq<CreatedObject>) {
    multiset(ObjectIds(r.next)) + Bag(r.deleted) == multiset(ObjectIds(pending))
  }

  lemma {:induction false} RoundKeepsIds(pending: seq<CreatedObject>, log: seq<Attempt>, alive: set<string>,
                                         delete: DeleteAnswers)
    ensures KeepsIds(DeleteRound(pending, log, alive, delete), pending)
  {
    if pending != [] {
      var n := |pending| - 1;
      RoundKeepsIds(pending[..n], log, alive, delete);
      KeepsIdsOneMore(DeleteRound(pending[..n], log, alive, delete), pending[..n], pending[n], delete);
      assert pending == pending[..n] + [pending[n]];
    }
  }

  lemma KeepsIdsOneMore(r: Round, pending: seq<CreatedObject>, o: CreatedObject, delete: DeleteAnswers)
    requires KeepsIds(r, pending)
    ensures KeepsIds(DeleteOne(r, o, delete), pending + [o])
  {
    DeleteOneKeepsIds(r, o, delete);
    ObjectIdsSnoc(pending, o);
  }

  lemma DeleteOneKeepsIds(r: Round, o: CreatedObject, delete: DeleteAnswers)
    ensures var r' := DeleteOne(r, o, delete);
            multiset(ObjectIds(r'.next)) + Bag(r'.deleted)
            == multiset(ObjectIds(r.next)) + Bag(r.deleted) + multiset{o.id}
  {
    var r' := DeleteOne(r, o, delete);
    if r'.next == r.next {
      EntryIdsSnoc(r.deleted, DeletedEntry(o));
    } else {
      ObjectIdsSnoc(r.next, r'.next[|r.next|]);
    }
  }

  /** Each object ends up either deleted or left, once. */
  lemma {:induction false} EachDeletedOrLeft(pending: seq<CreatedObject>, log: seq<Attempt>, alive: set<string>,
                                             delete: DeleteAnswers)
    ensures var r := DeleteRounds(pending, log, alive, delete);
            multiset(ObjectIds(r.next)) + Bag(r.deleted) == multiset(ObjectIds(pending))
    decreases |pending|
  {
    if pending != [] {
      RoundKeepsIds(pending, log, alive, delete);
      var r := DeleteRound(pending, log, alive, delete);
      if r.rejected.None? && r.deleted != [] {
        EachDeletedOrLeft(r.next, r.log, r.alive, delete);
        var rest := DeleteRounds(r.next, r.log, r.alive, delete);
        BagAppend(r.deleted, rest.deleted);
      }
    }
  }

  /** Only the last request can have been answered 401, and rejected tells so. */
  predicate StopsAt401(log: seq<Attempt>, rejected: Option<Error>) {
    && (forall i | 0 <= i < |log| && log[i].err == Some(Unauthorized) :: i == |log| - 1 && rejected.Some?)
    && (rejected.Some? ==> rejected == Some(Unauthorized) && log != [] && log[|log| - 1].err == rejected)
  }

  lemma {:induction false} RoundStopsAt401(pending: seq<CreatedObject>, log: seq<Attempt>, alive: set<string>,
                                           delete: DeleteAnswers)
    requires StopsAt401(log, None)
    ensures var r := DeleteRound(pending, log, alive, delete);
            StopsAt401(r.log, r.rejected) && |log| <= |r.log| <= |log| + |pending|
  {
    if pending != [] {
      RoundStopsAt401(pending[..|pending| - 1], log, alive, delete);
    }
  }

  /** k is at most n(n+1)/2. */
  predicate IsBounded(k: int, n: nat) { 2 * k <= n * (n + 1) }

  lemma FewAreBounded(k: int, n: nat)
    requires k <= n
    ensures IsBounded(k, n)
  {
    if n > 0 {
      assert n * (n + 1) == n * n + n && n * n >= n * 1;
    }
  }

  lemma MoreAreBounded(k: int, l: int, m: nat, n: nat)
    requires k <= n && m < n && IsBounded(l, m)
    ensures IsBounded(k + l, n)
  {
    Triangle(m, n);
  }

  lemma Triangle(m: nat, n: nat)
    requires m < n
    ensures 2 * n + m * (m + 1) <= n * (n + 1)
  {
    assert (n - 1 - m) * (n + m) >= 0;
  }

  /** Nothing is sent after a 401, and n objects take at most n(n+1)/2 delete requests. */
  lemma {:induction false} RequestsAreBounded(pending: seq<CreatedObject>, log: seq<Attempt>, alive: set<string>,
                                              delete: DeleteAnswers)
    requires StopsAt401(log, None)
    ensures var r := DeleteRounds(pending, log, alive, delete);
            StopsAt401(r.log, r.rejected) && IsBounded(|r.log| - |log|, |pending|)
    decreases |pending|
  {
    if pending == [] {
      FewAreBounded(0, 0);
    } else {
      RoundStopsAt401(pending, log, alive, delete);
      var r := DeleteRound(pending, log, alive, delete);
      if r.rejected.None? && r.deleted != [] {
        RequestsAreBounded(r.next, r.log, r.alive, delete);
        MoreAreBounded(|r.log| - |log|, |DeleteRounds(r.next, r.log, r.alive, delete).log| - |r.log|, |r.next|,
                       |pending|);
      } else {
        FewAreBounded(|r.log| - |log|, |pending|);
      }
    }
  }

  // ---------------------------------------------------------------------------
  // What the log says
  // ---------------------------------------------------------------------------

  /** Some request found the object, or its absence. */
  predicate GoneIn(log: seq<Attempt>, uri: string) {
    exists k :: 0 <= k < |log| && log[k].uri == uri && Gone(log[k].err)
  }

  /** The answer of the last request for the object, if it was not a success. */
  function LastErr(log: seq<Attempt>, uri: string): Option<Error> {
    if log == [] then None else
    var n := |log| - 1;
    if log[n].uri == uri then log[n].err else LastErr(log[..n], uri)
  }

  predicate EndsIn401(log: seq<Attempt>) { log != [] && log[|log| - 1].err == Some(Unauthorized) }

  /** The last request was answered 401, and it was for an object before this one. */
  predicate BehindStop(os: seq<CreatedObject>, log: seq<Attempt>, i: nat)
    requires i < |os|
  {
    EndsIn401(log) && exists j :: 0 <= j < i && os[j].uri == log[|log| - 1].uri
  }

  /** What an object is when it is left. */
  function LeftObject(os: seq<CreatedObject>, log: seq<Attempt>, i: nat): CreatedObject
    requires i < |os|
  {
    os[i].(lastErr := LastErr(log, os[i].uri), notRetried := BehindStop(os, log, i))
  }

  /** An object is deleted exactly when some request for it says it is gone; otherwise it is left, with
      the answer of its last request, and marked when a 401 stopped the round before it. */
  ghost predicate LogSays(os: seq<CreatedObject>, deleted: seq<Entry>, left: seq<CreatedObject>, log: seq<Attempt>) {
    AllPlaced(os, deleted, left, log) && AllAreDeleted(os, log, deleted) && AllAreLeft(os, log, left)
  }

  ghost predicate AllPlaced(os: seq<CreatedObject>, deleted: seq<Entry>, left: seq<CreatedObject>, log: seq<Attempt>) {
    forall i {:trigger GoneIn(log, os[i].uri)} {:trigger LeftObject(os, log, i)} | 0 <= i < |os| ::
      if GoneIn(log, os[i].uri) then DeletedEntry(os[i]) in deleted else LeftObject(os, log, i) in left
  }

  ghost predicate AllAreDeleted(os: seq<CreatedObject>, log: seq<Attempt>, deleted: seq<Entry>) {
    forall e | e in deleted :: IsDeleted(os, log, e)
  }

  ghost predicate IsDeleted(os: seq<CreatedObject>, log: seq<Attempt>, e: Entry) {
    exists i :: 0 <= i < |os| && e == DeletedEntry(os[i]) && GoneIn(log, os[i].uri)
  }

  ghost predicate IsLeft(os: seq<CreatedObject>, log: seq<Attempt>, o: CreatedObject) {
    exists i :: 0 <= i < |os| && o == LeftObject(os, log, i) && !GoneIn(log, os[i].uri)
  }

  ghost predicate AllAreLeft(os: seq<CreatedObject>, log: seq<Attempt>, left: seq<CreatedObject>) {
    forall o | o in left :: IsLeft(os, log, o)
  }

  /** Every answer in the log is the server's, to what had not been deleted before. */
  predicate Honest(log: seq<Attempt>, alive: set<string>, delete: DeleteAnswers) {
    forall k {:trigger log[k]} | 0 <= k < |log| ::
      log[k].err == delete(k, alive - GoneUris(log[..k]), log[k].uri)
  }

  function GoneUris(log: seq<Attempt>): set<string> { set k | 0 <= k < |log| && Gone(log[k].err) :: log[k].uri }

  lemma GoneUrisSnoc(log: seq<Attempt>, a: Attempt)
    ensures GoneUris(log + [a]) == GoneUris(log) + if Gone(a.err) then {a.uri} else {}
  {
    var log' := log + [a];
    forall u ensures u in GoneUris(log') <==> u in GoneUris(log) || (Gone(a.err) && u == a.uri) {
      if u in GoneUris(log) {
        var k :| 0 <= k < |log| && Gone(log[k].err) && log[k].uri == u;
        assert log'[k] == log[k];
      }
      assert log'[|log|] == a;
    }
  }

  lemma HonestSnoc(log: seq<Attempt>, a: Attempt, alive: set<string>, delete: DeleteAnswers)
    requires Honest(log, alive, delete) && a.err == delete(|log|, alive - GoneUris(log), a.uri)
    ensures Honest(log + [a], alive, delete)
  {
    var log' := log + [a];
    forall k {:trigger log'[k]} | 0 <= k < |log'|
      ensures log'[k].err == delete(k, alive - GoneUris(log'[..k]), log'[k].uri)
    {
      assert log'[..k] == log[..k];
      assert log[..|log|] == log;
    }
  }

  lemma {:induction false} RoundIsHonest(pending: seq<CreatedObject>, log: seq<Attempt>, alive: set<string>,
                                         delete: DeleteAnswers, all: set<string>)
    requires Honest(log, all, delete) && alive == all - GoneUris(log)
    ensures var r := DeleteRound(pending, log, alive, delete);
            Honest(r.log, all, delete) && r.alive == all - GoneUris(r.log)
  {
    if pending != [] {
      var n := |pending| - 1;
      RoundIsHonest(pending[..n], log, alive, delete, all);
      var r, o := DeleteRound(pending[..n], log, alive, delete), pending[n];
      var a := Attempt(o.uri, delete(|r.log|, r.alive, o.uri));
      HonestSnoc(r.log, a, all, delete);
      GoneUrisSnoc(r.log, a);
    }
  }

  lemma {:induction false} RoundsAreHonest(pending: seq<CreatedObject>, log: seq<Attempt>, alive: set<string>,
                                           delete: DeleteAnswers, all: set<string>)
    requires Honest(log, all, delete) && alive == all - GoneUris(log)
    ensures Honest(DeleteRounds(pending, log, alive, delete).log, all, delete)
    decreases |pending|
  {
    if pending != [] {
      RoundIsHonest(pending, log, alive, delete, all);
      var r := DeleteRound(pending, log, alive, delete);
      if r.rejected.None? && r.deleted != [] {
        RoundsAreHonest(r.next, r.log, r.alive, delete, all);
      }
    }
  }

  lemma {:induction false} RequestElsewhere(log: seq<Attempt>, a: Attempt, uri: string)
    requires uri != a.uri
    ensures GoneIn(log + [a], uri) == GoneIn(log, uri) && LastErr(log + [a], uri) == LastErr(log, uri)
  {
    var log' := log + [a];
    assert log'[..|log|] == log && log'[|log|] == a;
    assert forall k | 0 <= k < |log| :: log'[k] == log[k];
  }

  lemma {:induction false} RequestFor(log: seq<Attempt>, a: Attempt)
    ensures GoneIn(log + [a], a.uri) <==> GoneIn(log, a.uri) || Gone(a.err)
    ensures LastErr(log + [a], a.uri) == a.err
  {
    var log' := log + [a];
    assert log'[..|log|] == log && log'[|log|] == a;
    assert forall k | 0 <= k < |log| :: log'[k] == log[k];
  }

  lemma StillGone(log: seq<Attempt>, log': seq<Attempt>, uri: string)
    requires log <= log' && GoneIn(log, uri)
    ensures GoneIn(log', uri)
  {
    var k :| 0 <= k < |log| && log[k].uri == uri && Gone(log[k].err);
    assert log'[k] == log[k];
  }

  /** No request says the object is gone, and it has the answer of its last one. */
  predicate Remembers(o: CreatedObject, log: seq<Attempt>) {
    !GoneIn(log, o.uri) && o.lastErr == LastErr(log, o.uri) && !o.notRetried
  }

  predicate AllRemember(os: seq<CreatedObject>, log: seq<Attempt>) {
    forall i {:trigger os[i]} | 0 <= i < |os| :: Remembers(os[i], log)
  }

  /** The log of r goes on from log with requests for these objects, and rejected tells how it ends. */
  ghost predicate GoesOn(r: Round, os: seq<CreatedObject>, log: seq<Attempt>) {
    && log <= r.log
    && r.rejected == (if EndsIn401(r.log) then Some(Unauthorized) else None)
    && (EndsIn401(r.log) ==> r.log[|r.log| - 1].uri in Uris(os))
    && (forall k {:trigger r.log[k]} | |log| <= k < |r.log| :: r.log[k].uri in Uris(os))
    && forall u {:trigger GoneIn(r.log, u)} {:trigger LastErr(r.log, u)} | u !in Uris(os) ::
         GoneIn(r.log, u) == GoneIn(log, u) && LastErr(r.log, u) == LastErr(log, u)
  }

  /** What is left is in the order of the objects. */
  ghost predicate InOrder(some: seq<CreatedObject>, os: seq<CreatedObject>) {
    && Uris(some) <= Uris(os)
    && forall k, l {:trigger ComesBefore(os, some[k].uri, some[l].uri)} | 0 <= k < l < |some| ::
         ComesBefore(os, some[k].uri, some[l].uri)
  }

  ghost predicate ComesBefore(os: seq<CreatedObject>, u: string, v: string) {
    exists i, j :: 0 <= i < j < |os| && os[i].uri == u && os[j].uri == v
  }

  /** One more object changes nothing for those before it. */
  lemma LeftStays(os: seq<CreatedObject>, o: CreatedObject, log: seq<Attempt>, log': seq<Attempt>, i: nat)
    requires i < |os| && o.uri !in Uris(os)
    requires AtMostFor(o, log, log')
    ensures LeftObject(os + [o], log', i) == LeftObject(os, log, i)
    ensures GoneIn(log', os[i].uri) == GoneIn(log, os[i].uri)
  {
    var os' := os + [o];
    assert forall j | 0 <= j < |os| :: os'[j] == os[j];
    if log' != log {
      var err :| log' == log + [Attempt(o.uri, err)];
      RequestElsewhere(log, Attempt(o.uri, err), os[i].uri);
      assert !BehindStop(os', log', i);
    }
  }

  lemma InOrderOneMore(some: seq<CreatedObject>, os: seq<CreatedObject>, x: CreatedObject, o: CreatedObject)
    requires InOrder(some, os) && x.uri == o.uri
    ensures InOrder(some, os + [o]) && InOrder(some + [x], os + [o])
  {
    var os', some' := os + [o], some + [x];
    UrisSnoc(os, o);
    UrisSnoc(some, x);
    forall k, l | 0 <= k < l < |some| ensures ComesBefore(os', some[k].uri, some[l].uri) {
      assert ComesBefore(os, some[k].uri, some[l].uri);
      var i, j :| 0 <= i < j < |os| && os[i].uri == some[k].uri && os[j].uri == some[l].uri;
      assert os'[i] == os[i] && os'[j] == os[j];
    }
    forall k, l | 0 <= k < l < |some'|
      ensures ComesBefore(os', some'[k].uri, some'[l].uri)
    {
      if l < |some| {
        assert ComesBefore(os', some[k].uri, some[l].uri);
      } else {
        var i :| 0 <= i < |os| && os[i].uri == some[k].uri;
        assert os'[i] == os[i] && os'[|os|] == o;
      }
    }
  }

  lemma {:induction false} GoesOnOneMore(r: Round, os: seq<CreatedObject>, o: CreatedObject, log: seq<Attempt>,
                                         delete: DeleteAnswers)
    requires GoesOn(r, os, log)
    ensures GoesOn(DeleteOne(r, o, delete), os + [o], log)
  {
    UrisSnoc(os, o);
    var r' := DeleteOne(r, o, delete);
    if r.rejected.None? {
      var a := Attempt(o.uri, delete(|r.log|, r.alive, o.uri));
      assert r'.log == r.log + [a];
      forall u | u !in Uris(os + [o])
        ensures GoneIn(r'.log, u) == GoneIn(log, u) && LastErr(r'.log, u) == LastErr(log, u)
      {
        RequestElsewhere(r.log, a, u);
      }
    }
  }

  /** The log grew by at most one request, for o. */
  ghost predicate AtMostFor(o: CreatedObject, log: seq<Attempt>, log': seq<Attempt>) {
    log' == log || (!EndsIn401(log) && exists err :: log' == log + [Attempt(o.uri, err)])
  }

  lemma {:induction false} SaysDeleted(os: seq<CreatedObject>, o: CreatedObject, deleted: seq<Entry>,
                                       left: seq<CreatedObject>, log: seq<Attempt>, log': seq<Attempt>)
    requires LogSays(os, deleted, left, log) && o.uri !in Uris(os) && AtMostFor(o, log, log')
    requires GoneIn(log', o.uri)
    ensures LogSays(os + [o], deleted + [DeletedEntry(o)], left, log')
  {
    SaysTheSame(os, o, deleted, left, log, log');
    assert (os + [o])[|os|] == o;
  }

  lemma {:induction false} SaysLeft(os: seq<CreatedObject>, o: CreatedObject, deleted: seq<Entry>,
                                    left: seq<CreatedObject>, log: seq<Attempt>, log': seq<Attempt>)
    requires LogSays(os, deleted, left, log) && o.uri !in Uris(os) && AtMostFor(o, log, log')
    requires !GoneIn(log', o.uri)
    ensures LogSays(os + [o], deleted, left + [LeftObject(os + [o], log', |os|)], log')
  {
    SaysTheSame(os, o, deleted, left, log, log');
    assert (os + [o])[|os|] == o;
  }

  /** What was said of the objects before o still holds. */
  lemma {:induction false} SaysTheSame(os: seq<CreatedObject>, o: CreatedObject, deleted: seq<Entry>,
                                       left: seq<CreatedObject>, log: seq<Attempt>, log': seq<Attempt>)
    requires LogSays(os, deleted, left, log) && o.uri !in Uris(os) && AtMostFor(o, log, log')
    ensures forall i {:trigger (os + [o])[i]} | 0 <= i < |os| ::
              if GoneIn(log', (os + [o])[i].uri) then DeletedEntry((os + [o])[i]) in deleted
              else LeftObject(os + [o], log', i) in left
    ensures forall e | e in deleted :: IsDeleted(os + [o], log', e)
    ensures forall x | x in left :: IsLeft(os + [o], log', x)
  {
    var os' := os + [o];
    forall i {:trigger os'[i]} | 0 <= i < |os|
      ensures if GoneIn(log', os'[i].uri) then DeletedEntry(os'[i]) in deleted else LeftObject(os', log', i) in left
    {
      assert os'[i] == os[i];
      LeftStays(os, o, log, log', i);
    }
    forall e | e in deleted ensures IsDeleted(os', log', e) {
      DeletedStays(os, o, log, log', e);
    }
    forall x | x in left ensures IsLeft(os', log', x) {
      LeftOneStays(os, o, log, log', x);
    }
  }

  lemma {:induction false} DeletedStays(os: seq<CreatedObject>, o: CreatedObject, log: seq<Attempt>,
                                        log': seq<Attempt>, e: Entry)
    requires IsDeleted(os, log, e) && o.uri !in Uris(os) && AtMostFor(o, log, log')
    ensures IsDeleted(os + [o], log', e)
  {
    var i :| 0 <= i < |os| && e == DeletedEntry(os[i]) && GoneIn(log, os[i].uri);
    LeftStays(os, o, log, log', i);
    assert (os + [o])[i] == os[i];
  }

  lemma {:induction false} LeftOneStays(os: seq<CreatedObject>, o: CreatedObject, log: seq<Attempt>,
                                        log': seq<Attempt>, x: CreatedObject)
    requires IsLeft(os, log, x) && o.uri !in Uris(os) && AtMostFor(o, log, log')
    ensures IsLeft(os + [o], log', x)
  {
    var i :| 0 <= i < |os| && x == LeftObject(os, log, i) && !GoneIn(log, os[i].uri);
    LeftStays(os, o, log, log', i);
    assert (os + [o])[i] == os[i];
  }

  lemma {:induction false} SaysOneMore(r: Round, os: seq<CreatedObject>, o: CreatedObject, log: seq<Attempt>,
                                       delete: DeleteAnswers)
    requires GoesOn(r, os, log) && LogSays(os, r.deleted, r.next, r.log)
    requires o.uri !in Uris(os) && Remembers(o, log)
    ensures var r' := DeleteOne(r, o, delete); LogSays(os + [o], r'.deleted, r'.next, r'.log)
  {
    LastSays(r, os, o, log, delete);
    var r' := DeleteOne(r, o, delete);
    if GoneIn(r'.log, o.uri) {
      SaysDeleted(os, o, r.deleted, r.next, r.log, r'.log);
    } else {
      SaysLeft(os, o, r.deleted, r.next, r.log, r'.log);
    }
  }

  /** And what the last one becomes is what the log says of it. */
  lemma {:induction false} LastSays(r: Round, os: seq<CreatedObject>, o: CreatedObject, log: seq<Attempt>,
                                    delete: DeleteAnswers)
    requires GoesOn(r, os, log) && o.uri !in Uris(os) && Remembers(o, log)
    ensures var r', os' := DeleteOne(r, o, delete), os + [o];
            && (GoneIn(r'.log, o.uri) ==> r'.deleted == r.deleted + [DeletedEntry(o)] && r'.next == r.next)
            && (!GoneIn(r'.log, o.uri) ==>
                  r'.deleted == r.deleted && r'.next == r.next + [LeftObject(os', r'.log, |os|)])
            && AtMostFor(o, r.log, r'.log)
  {
    var r', os', n := DeleteOne(r, o, delete), os + [o], |os|;
    assert os'[n] == o && forall j | 0 <= j < n :: os'[j] == os[j];
    assert GoneIn(r.log, o.uri) == GoneIn(log, o.uri) && LastErr(r.log, o.uri) == LastErr(log, o.uri);
    if r.rejected.Some? {
      var j :| 0 <= j < n && os[j].uri == r.log[|r.log| - 1].uri;
      assert BehindStop(os', r.log, n);
    } else {
      RequestFor(r.log, Attempt(o.uri, delete(|r.log|, r.alive, o.uri)));
      assert !BehindStop(os', r'.log, n);
    }
  }

  ghost predicate RoundSays(r: Round, os: seq<CreatedObject>, log: seq<Attempt>) {
    GoesOn(r, os, log) && LogSays(os, r.deleted, r.next, r.log) && InOrder(r.next, os)
  }

  lemma {:induction false} RoundOneMore(r: Round, os: seq<CreatedObject>, o: CreatedObject, log: seq<Attempt>,
                                        delete: DeleteAnswers)
    requires RoundSays(r, os, log) && o.uri !in Uris(os) && Remembers(o, log)
    ensures RoundSays(DeleteOne(r, o, delete), os + [o], log)
  {
    GoesOnOneMore(r, os, o, log, delete);
    SaysOneMore(r, os, o, log, delete);
    var r' := DeleteOne(r, o, delete);
    InOrderOneMore(r.next, os, if r'.next == r.next then o else r'.next[|r.next|], o);
  }

  lemma {:induction false} RoundIsRight(pending: seq<CreatedObject>, log: seq<Attempt>, alive: set<string>,
                                        delete: DeleteAnswers)
    requires DistinctUris(pending) && AllRemember(pending, log) && !EndsIn401(log)
    ensures RoundSays(DeleteRound(pending, log, alive, delete), pending, log)
  {
    if pending == [] {
      NothingSays(log, alive);
    } else {
      var n := |pending| - 1;
      PrefixRemembers(pending, log, n);
      RoundIsRight(pending[..n], log, alive, delete);
      RoundToLast(DeleteRound(pending[..n], log, alive, delete), pending, n, log, delete);
    }
  }

  lemma {:induction false} RoundToLast(r: Round, os: seq<CreatedObject>, n: nat, log: seq<Attempt>,
                                       delete: DeleteAnswers)
    requires n == |os| - 1 && RoundSays(r, os[..n], log) && os[n].uri !in Uris(os[..n]) && Remembers(os[n], log)
    ensures RoundSays(DeleteOne(r, os[n], delete), os, log)
  {
    RoundOneMore(r, os[..n], os[n], log, delete);
    assert os[..n] + [os[n]] == os;
  }

  lemma {:induction false} PrefixRemembers(os: seq<CreatedObject>, log: seq<Attempt>, n: nat)
    requires n < |os| && DistinctUris(os) && AllRemember(os, log)
    ensures DistinctUris(os[..n]) && AllRemember(os[..n], log)
    ensures os[n].uri !in Uris(os[..n]) && Remembers(os[n], log)
  {
    NotAmongBefore(os, n);
  }

  lemma {:induction false} NothingSays(log: seq<Attempt>, alive: set<string>)
    requires !EndsIn401(log)
    ensures RoundSays(Round([], [], None, log, alive), [], log)
  {}

  lemma OrderKeepsDistinct(some: seq<CreatedObject>, os: seq<CreatedObject>)
    requires InOrder(some, os) && DistinctUris(os)
    ensures DistinctUris(some)
  {
    forall k, l {:trigger some[k], some[l]} | 0 <= k < l < |some| ensures some[k].uri != some[l].uri {
      assert ComesBefore(os, some[k].uri, some[l].uri);
      var i, j :| 0 <= i < j < |os| && os[i].uri == some[k].uri && os[j].uri == some[l].uri;
    }
  }

  lemma {:induction false} BehindExactly(os: seq<CreatedObject>, log: seq<Attempt>, i: nat, j: nat)
    requires DistinctUris(os) && i < |os| && j < |os| && EndsIn401(log) && os[j].uri == log[|log| - 1].uri
    ensures BehindStop(os, log, i) <==> j < i
  {}

  lemma {:induction false} SameOrder(some: seq<CreatedObject>, os: seq<CreatedObject>, k: nat, l: nat, i: nat, j: nat)
    requires InOrder(some, os) && DistinctUris(os) && k < l < |some| && i < |os| && j < |os|
    requires os[i].uri == some[k].uri && os[j].uri == some[l].uri
    ensures i < j
  {
    assert ComesBefore(os, some[k].uri, some[l].uri);
    var a, b :| 0 <= a < b < |os| && os[a].uri == some[k].uri && os[b].uri == some[l].uri;
    assert a == i && b == j;
  }

  /** Being behind the stop among what is left is being behind it among all. */
  lemma {:induction false} BehindInOrder(some: seq<CreatedObject>, os: seq<CreatedObject>, log: seq<Attempt>, k: nat,
                                         i: nat)
    requires InOrder(some, os) && DistinctUris(os) && k < |some| && i < |os| && some[k].uri == os[i].uri
    requires EndsIn401(log) ==> log[|log| - 1].uri in Uris(some)
    ensures BehindStop(some, log, k) <==> BehindStop(os, log, i)
  {
    if EndsIn401(log) {
      var u := log[|log| - 1].uri;
      var l :| 0 <= l < |some| && some[l].uri == u;
      var j :| 0 <= j < |os| && os[j].uri == u;
      OrderKeepsDistinct(some, os);
      BehindExactly(some, log, k, l);
      BehindExactly(os, log, i, j);
      if l < k {
        SameOrder(some, os, l, k, j, i);
      } else if k < l {
        SameOrder(some, os, k, l, i, j);
      }
    }
  }

  lemma {:induction false} OrderComposes(a: seq<CreatedObject>, b: seq<CreatedObject>, c: seq<CreatedObject>)
    requires InOrder(a, b) && InOrder(b, c) && DistinctUris(b)
    ensures InOrder(a, c)
  {
    forall k, l | 0 <= k < l < |a| ensures ComesBefore(c, a[k].uri, a[l].uri) {
      assert ComesBefore(b, a[k].uri, a[l].uri);
      var i, j :| 0 <= i < j < |b| && b[i].uri == a[k].uri && b[j].uri == a[l].uri;
      assert ComesBefore(c, b[i].uri, b[j].uri);
    }
  }

  /** An object a round left, and the next ones settled, was settled as the whole log says. */
  lemma {:induction false} LeftAgain(os: seq<CreatedObject>, next: seq<CreatedObject>, log: seq<Attempt>,
                                     log': seq<Attempt>, k: nat) returns (i: nat)
    requires DistinctUris(os) && InOrder(next, os) && k < |next| && IsLeft(os, log, next[k])
    requires EndsIn401(log') ==> log'[|log'| - 1].uri in Uris(next)
    ensures i < |os| && os[i].uri == next[k].uri && DeletedEntry(os[i]) == DeletedEntry(next[k])
    ensures LeftObject(next, log', k) == LeftObject(os, log', i)
  {
    i :| 0 <= i < |os| && next[k] == LeftObject(os, log, i) && !GoneIn(log, os[i].uri);
    BehindInOrder(next, os, log', k, i);
  }

  lemma {:induction false} PlacedAgain(os: seq<CreatedObject>, r: Round, rest: Round, i: nat)
    requires DistinctUris(os) && InOrder(r.next, os) && LogSays(os, r.deleted, r.next, r.log)
    requires GoesOn(rest, r.next, r.log) && LogSays(r.next, rest.deleted, rest.next, rest.log) && i < |os|
    ensures if GoneIn(rest.log, os[i].uri) then DeletedEntry(os[i]) in r.deleted + rest.deleted
            else LeftObject(os, rest.log, i) in rest.next
  {
    if GoneIn(r.log, os[i].uri) {
      StillGone(r.log, rest.log, os[i].uri);
    } else {
      assert LeftObject(os, r.log, i) in r.next;
      var k :| 0 <= k < |r.next| && r.next[k] == LeftObject(os, r.log, i);
      var j := LeftAgain(os, r.next, r.log, rest.log, k);
      assert j == i;
      assert if GoneIn(rest.log, r.next[k].uri) then DeletedEntry(r.next[k]) in rest.deleted
             else LeftObject(r.next, rest.log, k) in rest.next;
    }
  }

  lemma {:induction false} GoneStays(os: seq<CreatedObject>, log: seq<Attempt>, log': seq<Attempt>, e: Entry)
    requires IsDeleted(os, log, e) && log <= log'
    ensures IsDeleted(os, log', e)
  {
    var i :| 0 <= i < |os| && e == DeletedEntry(os[i]) && GoneIn(log, os[i].uri);
    StillGone(log, log', os[i].uri);
  }

  lemma {:induction false} DeletedAgain(os: seq<CreatedObject>, next: seq<CreatedObject>, log: seq<Attempt>,
                                        log': seq<Attempt>, e: Entry)
    requires DistinctUris(os) && InOrder(next, os) && AllAreLeft(os, log, next) && IsDeleted(next, log', e)
    requires EndsIn401(log') ==> log'[|log'| - 1].uri in Uris(next)
    ensures IsDeleted(os, log', e)
  {
    var k :| 0 <= k < |next| && e == DeletedEntry(next[k]) && GoneIn(log', next[k].uri);
    var i := LeftAgain(os, next, log, log', k);
    assert e == DeletedEntry(os[i]) && GoneIn(log', os[i].uri);
  }

  lemma {:induction false} LeftOverAgain(os: seq<CreatedObject>, next: seq<CreatedObject>, log: seq<Attempt>,
                                         log': seq<Attempt>, x: CreatedObject)
    requires DistinctUris(os) && InOrder(next, os) && AllAreLeft(os, log, next) && IsLeft(next, log', x)
    requires EndsIn401(log') ==> log'[|log'| - 1].uri in Uris(next)
    ensures IsLeft(os, log', x)
  {
    var k :| 0 <= k < |next| && x == LeftObject(next, log', k) && !GoneIn(log', next[k].uri);
    var i := LeftAgain(os, next, log, log', k);
    assert x == LeftObject(os, log', i) && !GoneIn(log', os[i].uri);
  }

  lemma {:induction false} GoesOnAgain(os: seq<CreatedObject>, log: seq<Attempt>, r: Round, rest: Round)
    requires GoesOn(r, os, log) && GoesOn(rest, r.next, r.log) && Uris(r.next) <= Uris(os)
    ensures GoesOn(rest, os, log)
  {
    forall u | u !in Uris(os) ensures GoneIn(rest.log, u) == GoneIn(log, u) && LastErr(rest.log, u) == LastErr(log, u) {
      assert GoneIn(rest.log, u) == GoneIn(r.log, u) && LastErr(rest.log, u) == LastErr(r.log, u);
    }
  }

  lemma {:induction false} AllPlacedAgain(os: seq<CreatedObject>, r: Round, rest: Round)
    requires DistinctUris(os) && InOrder(r.next, os) && LogSays(os, r.deleted, r.next, r.log)
    requires GoesOn(rest, r.next, r.log) && LogSays(r.next, rest.deleted, rest.next, rest.log)
    ensures AllPlaced(os, r.deleted + rest.deleted, rest.next, rest.log)
  {
    forall i | 0 <= i < |os|
      ensures if GoneIn(rest.log, os[i].uri) then DeletedEntry(os[i]) in r.deleted + rest.deleted
              else LeftObject(os, rest.log, i) in rest.next
    {
      PlacedAgain(os, r, rest, i);
    }
  }

  lemma {:induction false} AllDeletedAgain(os: seq<CreatedObject>, r: Round, rest: Round)
    requires DistinctUris(os) && InOrder(r.next, os) && LogSays(os, r.deleted, r.next, r.log)
    requires GoesOn(rest, r.next, r.log) && AllAreDeleted(r.next, rest.log, rest.deleted)
    ensures AllAreDeleted(os, rest.log, r.deleted + rest.deleted)
  {
    forall e | e in r.deleted + rest.deleted ensures IsDeleted(os, rest.log, e) {
      if e in r.deleted {
        GoneStays(os, r.log, rest.log, e);
      } else {
        DeletedAgain(os, r.next, r.log, rest.log, e);
      }
    }
  }

  lemma {:induction false} AllLeftAgain(os: seq<CreatedObject>, r: Round, rest: Round)
    requires DistinctUris(os) && InOrder(r.next, os) && AllAreLeft(os, r.log, r.next)
    requires GoesOn(rest, r.next, r.log) && AllAreLeft(r.next, rest.log, rest.next)
    ensures AllAreLeft(os, rest.log, rest.next)
  {
    forall x | x in rest.next ensures IsLeft(os, rest.log, x) {
      LeftOverAgain(os, r.next, r.log, rest.log, x);
    }
  }

  lemma {:induction false} LogSaysAgain(os: seq<CreatedObject>, r: Round, rest: Round)
    requires DistinctUris(os) && InOrder(r.next, os) && LogSays(os, r.deleted, r.next, r.log)
    requires GoesOn(rest, r.next, r.log) && LogSays(r.next, rest.deleted, rest.next, rest.log)
    ensures LogSays(os, r.deleted + rest.deleted, rest.next, rest.log)
  {
    AllPlacedAgain(os, r, rest);
    AllDeletedAgain(os, r, rest);
    AllLeftAgain(os, r, rest);
  }

  lemma {:induction false} SaysAgain(os: seq<CreatedObject>, log: seq<Attempt>, r: Round, rest: Round)
    requires DistinctUris(os) && RoundSays(r, os, log) && RoundSays(rest, r.next, r.log)
    ensures RoundSays(rest.(deleted := r.deleted + rest.deleted), os, log)
  {
    GoesOnAgain(os, log, r, rest);
    OrderKeepsDistinct(r.next, os);
    OrderComposes(rest.next, r.next, os);
    LogSaysAgain(os, r, rest);
  }

  /** What a round without a 401 leaves can be tried again. */
  lemma {:induction false} LeftRemember(os: seq<CreatedObject>, log: seq<Attempt>, r: Round)
    requires DistinctUris(os) && RoundSays(r, os, log) && r.rejected.None?
    ensures DistinctUris(r.next) && AllRemember(r.next, r.log) && !EndsIn401(r.log)
  {
    OrderKeepsDistinct(r.next, os);
    forall k {:trigger r.next[k]} | 0 <= k < |r.next| ensures Remembers(r.next[k], r.log) {
      assert IsLeft(os, r.log, r.next[k]);
    }
  }

  /** Whatever the server answers: an object is deleted exactly when a request for it says it is gone;
      every other one is left with the answer of its last request. */
  lemma {:induction false} RoundsAreRight(pending: seq<CreatedObject>, log: seq<Attempt>, alive: set<string>,
                                          delete: DeleteAnswers)
    requires DistinctUris(pending) && AllRemember(pending, log) && !EndsIn401(log)
    ensures RoundSays(DeleteRounds(pending, log, alive, delete), pending, log)
    decreases |pending|
  {
    if pending == [] {
      NothingSays(log, alive);
    } else {
      RoundIsRight(pending, log, alive, delete);
      var r := DeleteRound(pending, log, alive, delete);
      if r.rejected.None? && r.deleted != [] {
        LeftRemember(pending, log, r);
        RoundsAreRight(r.next, r.log, r.alive, delete);
        SaysAgain(pending, log, r, DeleteRounds(r.next, r.log, r.alive, delete));
      }
    }
  }

  /** A round asks for the objects in their order, all of them unless a 401 stops it. */
  lemma {:induction false} RoundAsksInOrder(pending: seq<CreatedObject>, log: seq<Attempt>, alive: set<string>,
                                            delete: DeleteAnswers)
    ensures var r := DeleteRound(pending, log, alive, delete);
            && |log| <= |r.log| <= |log| + |pending| && (r.rejected.None? ==> |r.log| == |log| + |pending|)
            && (forall k | 0 <= k < |r.log| - |log| :: r.log[|log| + k].uri == pending[k].uri)
            && (r.deleted == [] && r.rejected.None? ==> AllRefused(r.next, r.log) && |r.next| == |pending|)
  {
    if pending != [] {
      RoundAsksInOrder(pending[..|pending| - 1], log, alive, delete);
    }
  }

  /** The last requests were for what is left, in order, and all were refused. */
  predicate AllRefused(left: seq<CreatedObject>, log: seq<Attempt>) {
    && |left| <= |log|
    && forall k {:trigger left[k]} | 0 <= k < |left| ::
         var a := log[|log| - |left| + k];
         a.uri == left[k].uri && !Gone(a.err) && a.err == left[k].lastErr
  }

  /** The rounds end when nothing is left, after a 401, or after a round in which every object left
      was refused. */
  lemma {:induction false} RoundsEndRight(pending: seq<CreatedObject>, log: seq<Attempt>, alive: set<string>,
                                          delete: DeleteAnswers)
    ensures var r := DeleteRounds(pending, log, alive, delete); r.rejected.Some? || AllRefused(r.next, r.log)
    decreases |pending|
  {
    if pending != [] {
      RoundAsksInOrder(pending, log, alive, delete);
      var r := DeleteRound(pending, log, alive, delete);
      if r.rejected.None? && r.deleted != [] {
        RoundsEndRight(r.next, r.log, r.alive, delete);
      }
    }
  }

  /** The reason given for an object that is left. */
  function LeftReason(os: seq<CreatedObject>, log: seq<Attempt>, i: nat): Reason
    requires i < |os|
  {
    match LastErr(log, os[i].uri)
    case None => DeleteNotAttempted(Unauthorized)
    case Some(err) => if BehindStop(os, log, i) then DeleteNotRetried(err, Unauthorized) else DeleteFailed(err)
  }

  function LeftEntry(os: seq<CreatedObject>, log: seq<Attempt>, i: nat): Entry
    requires i < |os|
  {
    Entry(os[i].id, os[i].typ, os[i].name, LeftReason(os, log, i))
  }

  predicate Untried(os: seq<CreatedObject>) {
    forall i {:trigger os[i]} | 0 <= i < |os| :: os[i].lastErr == None && !os[i].notRetried
  }

  /** The deletion, told from its requests alone. Every answer is the server's; an object is in deleted
      exactly when a request for it says it is gone, and otherwise in failed, with the answer of its
      last request and what stopped the others; and it ends when nothing is left, after a 401, or after
      a round in which every object left was refused. */
  ghost predicate DeletionIsRight(os: seq<CreatedObject>, alive: set<string>, delete: DeleteAnswers,
                                  deleted: seq<Entry>, failed: seq<Entry>, log: seq<Attempt>)
  {
    && Honest(log, alive, delete) && (forall a | a in log :: a.uri in Uris(os))
    && AllReported(os, deleted, failed, log) && AllAreDeleted(os, log, deleted)
    && (forall e | e in failed :: IsLeftEntry(os, log, e))
    && |deleted| + |failed| == |os|
    && (EndsIn401(log) || (|failed| <= |log| && forall a | a in log[|log| - |failed|..] :: !Gone(a.err)))
  }

  ghost predicate AllReported(os: seq<CreatedObject>, deleted: seq<Entry>, failed: seq<Entry>, log: seq<Attempt>) {
    forall i {:trigger GoneIn(log, os[i].uri)} {:trigger LeftEntry(os, log, i)} | 0 <= i < |os| ::
      if GoneIn(log, os[i].uri) then DeletedEntry(os[i]) in deleted else LeftEntry(os, log, i) in failed
  }

  ghost predicate IsLeftEntry(os: seq<CreatedObject>, log: seq<Attempt>, e: Entry) {
    exists i :: 0 <= i < |os| && e == LeftEntry(os, log, i) && !GoneIn(log, os[i].uri)
  }

  lemma {:induction false} LeftIsFailed(os: seq<CreatedObject>, log: seq<Attempt>, rejected: Option<Error>, i: nat)
    requires i < |os| && rejected == (if EndsIn401(log) then Some(Unauthorized) else None)
    requires Explained(LeftObject(os, log, i), rejected)
    ensures FailedEntry(LeftObject(os, log, i), rejected) == LeftEntry(os, log, i)
  {}

  /** Left objects and the entries made of them. */
  lemma {:induction false} LeftAreReported(os: seq<CreatedObject>, deleted: seq<Entry>, left: seq<CreatedObject>,
                                           log: seq<Attempt>, rejected: Option<Error>)
    requires LogSays(os, deleted, left, log) && AllExplained(left, rejected)
    requires rejected == (if EndsIn401(log) then Some(Unauthorized) else None)
    ensures AllReported(os, deleted, FailedEntries(left, rejected), log)
    ensures forall e | e in FailedEntries(left, rejected) :: IsLeftEntry(os, log, e)
  {
    var failed := FailedEntries(left, rejected);
    forall i | 0 <= i < |os| && !GoneIn(log, os[i].uri) ensures LeftEntry(os, log, i) in failed {
      var k :| 0 <= k < |left| && left[k] == LeftObject(os, log, i);
      LeftIsFailed(os, log, rejected, i);
      assert failed[k] == LeftEntry(os, log, i);
    }
    forall e | e in failed ensures IsLeftEntry(os, log, e) {
      var k :| 0 <= k < |failed| && failed[k] == e;
      assert IsLeft(os, log, left[k]);
      var i :| 0 <= i < |os| && left[k] == LeftObject(os, log, i) && !GoneIn(log, os[i].uri);
      LeftIsFailed(os, log, rejected, i);
    }
  }

  /** The main result for deleteCreatedObjects, whatever the server answers. */
  lemma {:induction false} DeletionFollowsLog(objs: seq<CreatedObject>, alive: set<string>, delete: DeleteAnswers)
    requires DistinctUris(objs) && Untried(objs)
    ensures var r := DeleteRounds(objs, [], alive, delete);
            && AllExplained(r.next, r.rejected)
            && DeletionIsRight(objs, alive, delete, r.deleted, FailedEntries(r.next, r.rejected), r.log)
  {
    var r := DeleteRounds(objs, [], alive, delete);
    LeftAreExplained(objs, [], alive, delete);
    UntriedRemember(objs);
    RoundsAreRight(objs, [], alive, delete);
    LeftAreReported(objs, r.deleted, r.next, r.log, r.rejected);
    assert GoneUris([]) == {} && alive - {} == alive;
    RoundsAreHonest(objs, [], alive, delete, alive);
    RoundsEndRight(objs, [], alive, delete);
    LengthsAdd(objs, [], alive, delete);
    if r.rejected.None? {
      RefusedAtEnd(r.next, r.log);
    }
  }

  lemma {:induction false} UntriedRemember(os: seq<CreatedObject>)
    requires Untried(os)
    ensures AllRemember(os, [])
  {}

  lemma {:induction false} RefusedAtEnd(left: seq<CreatedObject>, log: seq<Attempt>)
    requires AllRefused(left, log)
    ensures forall a | a in log[|log| - |left|..] :: !Gone(a.err)
  {
    var end := log[|log| - |left|..];
    forall a | a in end ensures !Gone(a.err) {
      var k :| 0 <= k < |end| && end[k] == a;
      assert left[k].uri == a.uri;
    }
  }

  lemma {:induction false} LengthsAdd(pending: seq<CreatedObject>, log: seq<Attempt>, alive: set<string>,
                                      delete: DeleteAnswers)
    ensures var r := DeleteRounds(pending, log, alive, delete); |r.deleted| + |r.next| == |pending|
    decreases |pending|
  {
    if pending != [] {
      var r := DeleteRound(pending, log, alive, delete);
      if r.rejected.None? && r.deleted != [] {
        LengthsAdd(r.next, r.log, r.alive, delete);
      }
    }
  }

  // ---------------------------------------------------------------------------
  // A server that refuses to delete what is in use
  // ---------------------------------------------------------------------------

  /** (a, b) in uses says object a uses object b. */
  type Uses = set<(string, string)>

  predicate UsedIn(among: set<string>, uri: string, uses: Uses) {
    exists v :: v in among && v != uri && (v, uri) in uses
  }

  /** A delete succeeds exactly when no other remaining object uses the target: none of those still
      to be deleted, and none of the others in the system, which the deletion does not touch. */
  ghost predicate RefusesUsed(delete: DeleteAnswers, uses: Uses, others: set<string>) {
    forall k: nat, alive: set<string>, u: string {:trigger delete(k, alive, u)} | u in alive ::
      && (Gone(delete(k, alive, u)) <==> !UsedIn(alive + others, u, uses))
      && delete(k, alive, u) != Some(Unauthorized)
  }

  /** Every member is used by another member, or by one of the others. */
  predicate Supported(objs: set<string>, uses: Uses, others: set<string>) {
    forall u | u in objs :: UsedIn(objs + others, u, uses)
  }

  function Uris(os: seq<CreatedObject>): (r: set<string>)
    ensures forall i | 0 <= i < |os| :: os[i].uri in r
    ensures forall u | u in r :: exists i :: 0 <= i < |os| && os[i].uri == u
  {
    set i | 0 <= i < |os| :: os[i].uri
  }

  predicate DistinctUris(os: seq<CreatedObject>) {
    forall i, j {:trigger os[i], os[j]} | 0 <= i < j < |os| :: os[i].uri != os[j].uri
  }

  lemma UrisSnoc(os: seq<CreatedObject>, o: CreatedObject)
    ensures Uris(os + [o]) == Uris(os) + {o.uri}
  {
    var all := os + [o];
    forall u ensures u in Uris(all) <==> u in Uris(os) + {o.uri} {
      if u in Uris(all) {
        var i :| 0 <= i < |all| && all[i].uri == u;
        assert i < |os| ==> os[i].uri == u;
      }
      if u in Uris(os) {
        var i :| 0 <= i < |os| && os[i].uri == u;
        assert all[i].uri == u;
      }
      assert all[|os|].uri == o.uri;
    }
  }

  lemma SupportedIsUsed(kept: set<string>, alive: set<string>, uses: Uses, others: set<string>, uri: string)
    requires Supported(kept, uses, others) && kept <= alive && uri in kept
    ensures UsedIn(alive + others, uri, uses)
  {
    var v :| v in kept + others && v != uri && (v, uri) in uses;
    assert v in alive + others;
  }

  /** What a round leaves is what it did not delete, and it deletes no member of a supported set. */
  ghost predicate RoundIsFair(r: Round, pending: seq<CreatedObject>, alive: set<string>, uses: Uses,
                              others: set<string>, kept: set<string>)
  {
    && r.rejected.None? && DistinctUris(r.next)
    && Uris(r.next) <= Uris(pending) && r.alive == alive - Uris(pending) + Uris(r.next)
    && kept <= r.alive
    && (r.deleted == []
        ==> Uris(r.next) == Uris(pending) && forall u | u in Uris(pending) :: UsedIn(alive + others, u, uses))
  }

  lemma {:induction false} RoundKeepsSupported(pending: seq<CreatedObject>, log: seq<Attempt>, alive: set<string>,
                                               delete: DeleteAnswers, uses: Uses, others: set<string>,
                                               kept: set<string>)
    requires RefusesUsed(delete, uses, others) && DistinctUris(pending) && Uris(pending) <= alive
    requires kept <= alive && Supported(kept, uses, others)
    ensures RoundIsFair(DeleteRound(pending, log, alive, delete), pending, alive, uses, others, kept)
  {
    if pending != [] {
      var n := |pending| - 1;
      UrisSnoc(pending[..n], pending[n]);
      assert pending == pending[..n] + [pending[n]];
      RoundKeepsSupported(pending[..n], log, alive, delete, uses, others, kept);
      NotAmongBefore(pending, n);
      FairOneMore(DeleteRound(pending[..n], log, alive, delete), pending[..n], pending[n], alive, delete, uses, others,
                  kept);
    }
  }

  lemma NotAmongBefore(os: seq<CreatedObject>, n: nat)
    requires DistinctUris(os) && n < |os|
    ensures os[n].uri !in Uris(os[..n])
  {}

  lemma FairOneMore(r: Round, before: seq<CreatedObject>, o: CreatedObject, alive: set<string>,
                    delete: DeleteAnswers, uses: Uses, others: set<string>, kept: set<string>)
    requires RefusesUsed(delete, uses, others) && RoundIsFair(r, before, alive, uses, others, kept)
    requires Uris(before) <= alive && o.uri in alive && o.uri !in Uris(before) && Supported(kept, uses, others)
    ensures RoundIsFair(DeleteOne(r, o, delete), before + [o], alive, uses, others, kept)
  {
    UrisSnoc(before, o);
    if o.uri in kept {
      SupportedIsUsed(kept, r.alive, uses, others, o.uri);
    }
    var err := delete(|r.log|, r.alive, o.uri);
    if !Gone(err) {
      UrisSnoc(r.next, o.(lastErr := err));
      if r.deleted == [] {
        assert r.alive == alive;
      }
    }
  }

  /** Then the rounds leave exactly the largest set in which every member is used by another member or
      by one of the others, whatever the order of the objects. */
  lemma {:induction false} LeavesLargestSupported(pending: seq<CreatedObject>, log: seq<Attempt>,
                                                  delete: DeleteAnswers, uses: Uses, others: set<string>,
                                                  kept: set<string>)
    requires RefusesUsed(delete, uses, others) && DistinctUris(pending)
    requires kept <= Uris(pending) && Supported(kept, uses, others)
    ensures var left := Uris(DeleteRounds(pending, log, Uris(pending), delete).next);
            kept <= left <= Uris(pending) && Supported(left, uses, others)
    decreases |pending|
  {
    var alive := Uris(pending);
    if pending != [] {
      RoundKeepsSupported(pending, log, alive, delete, uses, others, kept);
      var r := DeleteRound(pending, log, alive, delete);
      if r.deleted != [] {
        assert r.alive == Uris(r.next);
        LeavesLargestSupported(r.next, r.log, delete, uses, others, kept);
      }
    }
  }

  /** Nothing is left exactly when no non-empty set of the objects is supported. */
  lemma LeavesNothingExactly(objs: seq<CreatedObject>, delete: DeleteAnswers, uses: Uses, others: set<string>)
    requires RefusesUsed(delete, uses, others) && DistinctUris(objs)
    ensures DeleteRounds(objs, [], Uris(objs), delete).next == [] <==>
            forall kept {:trigger Supported(kept, uses, others)} |
              kept <= Uris(objs) && Supported(kept, uses, others) :: kept == {}
  {
    var left := DeleteRounds(objs, [], Uris(objs), delete).next;
    forall kept {:trigger Supported(kept, uses, others)} | kept <= Uris(objs) && Supported(kept, uses, others)
      ensures kept <= Uris(left)
    {
      LeavesLargestSupported(objs, [], delete, uses, others, kept);
    }
    LeavesLargestSupported(objs, [], delete, uses, others, {});
    if left != [] {
      assert left[0].uri in Uris(left);
      assert Supported(Uris(left), uses, others);
    }
  }

  /** Use without cycles: a rank that every use of one object by another lowers. */
  ghost predicate Acyclic(objs: set<string>, uses: Uses, rank: string -> nat) {
    forall a, b | a in objs && b in objs && a != b && (a, b) in uses :: rank(a) < rank(b)
  }

  predicate UsedByOthers(objs: set<string>, uses: Uses, others: set<string>) {
    exists u :: u in objs && UsedIn(others, u, uses)
  }

  lemma {:induction false} AcyclicSupportsNothing(kept: set<string>, objs: set<string>, uses: Uses, others: set<string>,
                                                  rank: string -> nat, u: string)
    requires Acyclic(objs, uses, rank) && kept <= objs && Supported(kept, uses, others)
             && !UsedByOthers(objs, uses, others)
    ensures u !in kept
    decreases rank(u)
  {
    if u in kept {
      var v :| v in kept + others && v != u && (v, u) in uses;
      assert v in kept by {
        assert u in objs && !UsedIn(others, u, uses);
      }
      AcyclicSupportsNothing(kept, objs, uses, others, rank, v);
    }
  }

  /** When use among the objects is acyclic, nothing is left exactly when none of the others uses one. */
  lemma AcyclicLeavesNothing(objs: seq<CreatedObject>, delete: DeleteAnswers, uses: Uses, others: set<string>,
                             rank: string -> nat)
    requires RefusesUsed(delete, uses, others) && DistinctUris(objs) && Acyclic(Uris(objs), uses, rank)
    ensures DeleteRounds(objs, [], Uris(objs), delete).next == [] <==> !UsedByOthers(Uris(objs), uses, others)
  {
    LeavesNothingExactly(objs, delete, uses, others);
    if UsedByOthers(Uris(objs), uses, others) {
      var u :| u in Uris(objs) && UsedIn(others, u, uses);
      var v :| v in others && v != u && (v, u) in uses;
      assert UsedIn({u} + others, u, uses) by {
        assert v in {u} + others;
      }
      assert Supported({u}, uses, others) && {u} <= Uris(objs);
    } else {
      forall kept, u | kept <= Uris(objs) && Supported(kept, uses, others) && u in kept
        ensures false
      {
        AcyclicSupportsNothing(kept, Uris(objs), uses, others, rank, u);
      }
    }
  }
}
