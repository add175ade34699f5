/** What a rollback reports (adt/rollback.go: RollbackResult).

    Every list entry carries an id, which the program does not have: the number of the transport
    entry it reports, or the unit of source it is about. */
module RollbackReport {
  import opened Text

  datatype Error = Unauthorized | Missing | Other(text: string)

  datatype Id = OfEntry(index: nat) | OfUnit(uri: string)

  datatype Reason =
    | NoReason
    | Resolving(err: Error)
    | NotAttempted(err: Error)
    | NoSource(text: string)
    | NotRestored(err: Error)
    | CreatedKept
    | CreatedRestoreErr
    | CreatedSubObjects
    | CreatedSubObject
    | OriginUnread(err: Error)
    | OtherSystem(system: string)
    | NotDeleted(err: Error)
    | DeleteFailed(err: Error)
    | DeleteNotRetried(err: Error, rejected: Error)
    | DeleteNotAttempted(rejected: Error)

  /** RollbackEntry. */
  datatype Entry = Entry(id: Id, typ: string, name: string, reason: Reason)

  datatype Lists = Lists(restored: seq<Entry>, skipped: seq<Entry>, failed: seq<Entry>,
                         created: seq<Entry>, deleted: seq<Entry>)

  /** RollbackResult. */
  class Result {
    var restored: seq<Entry>
    var skipped: seq<Entry>
    var failed: seq<Entry>
    var created: seq<Entry>
    var deleted: seq<Entry>

    function View(): Lists
      reads this
    {
      Lists(restored, skipped, failed, created, deleted)
    }

    constructor ()
      ensures View() == Lists([], [], [], [], [])
    {
      restored, skipped, failed, created, deleted := [], [], [], [], [];
    }
  }

  function EntryIds(es: seq<Entry>): (ids: seq<Id>)
    ensures |ids| == |es| && forall i | 0 <= i < |es| :: ids[i] == es[i].id
  {
    seq(|es|, i requires 0 <= i < |es| => es[i].id)
  }

  function Bag(es: seq<Entry>): multiset<Id> { multiset(EntryIds(es)) }

  lemma BagAppend(a: seq<Entry>, b: seq<Entry>)
    ensures Bag(a + b) == Bag(a) + Bag(b)
  {
    EntryIdsAppend(a, b);
    assert multiset(EntryIds(a) + EntryIds(b)) == Bag(a) + Bag(b);
  }

  /** Everything the five lists report. */
  function AllIds(l: Lists): multiset<Id> {
    Bag(l.restored) + Bag(l.skipped) + Bag(l.failed) + Bag(l.created) + Bag(l.deleted)
  }

  predicate HasId(es: seq<Entry>, id: Id) { id in EntryIds(es) }

  lemma HasIdAppend(a: seq<Entry>, b: seq<Entry>, id: Id)
    ensures HasId(a + b, id) <==> HasId(a, id) || HasId(b, id)
  {
    EntryIdsAppend(a, b);
  }

  lemma HasIdSnoc(es: seq<Entry>, e: Entry, id: Id)
    ensures HasId(es + [e], id) <==> HasId(es, id) || e.id == id
  {
    HasIdAppend(es, [e], id);
    assert EntryIds([e]) == [e.id];
  }

  /** The entries report transport entries, or units of source. */
  predicate OnlyEntries(es: seq<Entry>) { forall i {:trigger es[i]} | 0 <= i < |es| :: es[i].id.OfEntry? }

  predicate OnlyUnits(es: seq<Entry>) { forall i {:trigger es[i]} | 0 <= i < |es| :: es[i].id.OfUnit? }

  lemma UnitsAreNoEntries(es: seq<Entry>, i: nat)
    requires OnlyUnits(es)
    ensures !HasId(es, OfEntry(i))
  {}

  function UnitOf(uri: string): Id { OfUnit(Lower(uri)) }

  lemma EntryIdsAppend(a: seq<Entry>, b: seq<Entry>)
    ensures EntryIds(a + b) == EntryIds(a) + EntryIds(b)
  {}

  lemma EntryIdsSnoc(es: seq<Entry>, e: Entry)
    ensures Bag(es + [e]) == Bag(es) + multiset{e.id}
  {
    assert EntryIds(es + [e]) == EntryIds(es) + [e.id];
  }
}
