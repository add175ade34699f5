/** Which version of an object a rollback writes back (adt/rollback.go: createdByTransport,
    findPreTransportVersion, planRestore).

    A version history is ordered newest first; a class keeps one history per include, interleaved. */
module RestorePlan {
  import opened Text

  datatype Version = Version(transport: string, incl: string, contentURI: string)

  /** sourceWrite: the version at contentURI goes back into the include. */
  datatype Write = Write(incl: string, contentURI: string)

  /** The request and its tasks, upper-cased: strings.EqualFold is equality of these on ASCII. */
  function Folded(transports: seq<string>): set<string> {
    set i | 0 <= i < |transports| :: Upper(transports[i])
  }

  predicate Inside(v: Version, own: set<string>) { Upper(v.transport) in own }

  predicate AnyInside(versions: seq<Version>, own: set<string>) {
    exists i :: 0 <= i < |versions| && Inside(versions[i], own)
  }

  predicate AllInside(versions: seq<Version>, own: set<string>) {
    forall i | 0 <= i < |versions| :: Inside(versions[i], own)
  }

  /** The set both matching functions build. */
  method FoldAll(transports: seq<string>) returns (own: set<string>)
    ensures own == Folded(transports)
  {
    own := {};
    for i := 0 to |transports|
      invariant own == Folded(transports[..i])
    {
      assert transports[..i + 1] == transports[..i] + [transports[i]];
      FoldedSnoc(transports[..i], transports[i]);
      own := own + {Upper(transports[i])};
    }
    assert transports[..|transports|] == transports;
  }

  lemma FoldedSnoc(ts: seq<string>, t: string)
    ensures Folded(ts + [t]) == Folded(ts) + {Upper(t)}
  {
    var all := ts + [t];
    forall u ensures u in Folded(all) <==> u in Folded(ts) + {Upper(t)} {
      if u in Folded(ts) {
        var i :| 0 <= i < |ts| && u == Upper(ts[i]);
        assert all[i] == ts[i];
      }
      if u == Upper(t) {
        assert all[|ts|] == t;
      }
    }
  }

  /** createdByTransport: the history is not empty and lies wholly in the transport. */
  method CreatedByTransport(versions: seq<Version>, transports: seq<string>) returns (created: bool)
    ensures created <==> versions != [] && AllInside(versions, Folded(transports))
  {
    if |versions| == 0 {
      return false;
    }
    var own := FoldAll(transports);
    for i := 0 to |versions|
      invariant forall j | 0 <= j < i :: Inside(versions[j], own)
    {
      if Upper(versions[i].transport) !in own {
        assert !Inside(versions[i], own);
        return false;
      }
    }
    return true;
  }

  /** historyHasTransport. */
  method HistoryHasTransport(versions: seq<Version>, transports: seq<string>) returns (found: bool)
    ensures found <==> AnyInside(versions, Folded(transports))
  {
    var own := Folded(transports);
    for i := 0 to |versions|
      invariant forall j | 0 <= j < i :: !Inside(versions[j], own)
    {
      for k := 0 to |transports|
        invariant forall l | 0 <= l < k :: Upper(versions[i].transport) != Upper(transports[l])
      {
        if Upper(versions[i].transport) == Upper(transports[k]) {
          assert Inside(versions[i], own);
          return true;
        }
      }
    }
    return false;
  }

  // ---------------------------------------------------------------------------
  // The version before the transport
  // ---------------------------------------------------------------------------

  /** The state right before the transport: versions first..k-1 are its newest contiguous run, and
      k is the first entry after it. */
  predicate RightBefore(history: seq<Version>, own: set<string>, first: int, k: int) {
    && 0 <= first < k < |history| && Inside(history[first], own)
    && (forall i | 0 <= i < first :: !Inside(history[i], own))
    && (forall i | first <= i < k :: Inside(history[i], own))
    && !Inside(history[k], own)
  }

  /** There is such an entry, and it has source. */
  ghost predicate HasEarlier(history: seq<Version>, own: set<string>) {
    exists first, k :: RightBefore(history, own, first, k) && history[k].contentURI != ""
  }

  ghost predicate IsPreVersion(history: seq<Version>, own: set<string>, uri: string) {
    exists first, k :: RightBefore(history, own, first, k) && history[k].contentURI == uri && uri != ""
  }

  lemma RightBeforeUnique(history: seq<Version>, own: set<string>, first: int, k: int)
    requires RightBefore(history, own, first, k)
    ensures HasEarlier(history, own) <==> history[k].contentURI != ""
    ensures history[k].contentURI != "" ==> IsPreVersion(history, own, history[k].contentURI)
  {
    forall first', k' | RightBefore(history, own, first', k') ensures k' == k {
      assert Inside(history[first], own) && Inside(history[first'], own);
      assert !Inside(history[k], own) && !Inside(history[k'], own);
    }
  }

  lemma NothingBefore(history: seq<Version>, own: set<string>, first: nat)
    requires first <= |history| && (forall i | 0 <= i < first :: !Inside(history[i], own))
    requires forall i | first <= i < |history| :: Inside(history[i], own)
    ensures !HasEarlier(history, own)
  {
    forall f, k | 0 <= f < k < |history| && Inside(history[f], own) ensures Inside(history[k], own) {
      assert first <= f;
    }
  }

  datatype Found = PreVersion(uri: string) | TransportNotFound | NoEarlierVersion

  /** findPreTransportVersion. */
  method FindPreTransportVersion(history: seq<Version>, transports: seq<string>) returns (r: Found)
    ensures r.TransportNotFound? <==> !AnyInside(history, Folded(transports))
    ensures r.PreVersion? <==> HasEarlier(history, Folded(transports))
    ensures r.PreVersion? ==> IsPreVersion(history, Folded(transports), r.uri)
  {
    var own := FoldAll(transports);
    var seenTransport := false;
    var restoreURI := "";
    ghost var first: nat, k: nat := 0, |history|;
    for i := 0 to |history|
      invariant k == |history| && restoreURI == ""
      invariant !seenTransport ==> forall j | 0 <= j < i :: !Inside(history[j], own)
      invariant seenTransport ==>
                  && first < i
                  && (forall j | 0 <= j < first :: !Inside(history[j], own))
                  && (forall j | first <= j < i :: Inside(history[j], own))
    {
      if Upper(history[i].transport) in own {
        if !seenTransport {
          first := i;
        }
        seenTransport := true;
        assert Inside(history[i], own);
        continue;
      }
      assert !Inside(history[i], own);
      if seenTransport {
        restoreURI := history[i].contentURI;
        k := i;
        break;
      }
    }
    if !seenTransport {
      NothingBefore(history, own, |history|);
      return TransportNotFound;
    }
    assert Inside(history[first], own);
    if k < |history| {
      RightBeforeUnique(history, own, first, k);
    } else {
      NothingBefore(history, own, first);
    }
    if restoreURI == "" {
      return NoEarlierVersion;
    }
    return PreVersion(restoreURI);
  }

  // ---------------------------------------------------------------------------
  // The plan for a whole object
  // ---------------------------------------------------------------------------

  /** The history of one include. */
  function HistoryOf(versions: seq<Version>, incl: string): seq<Version> {
    if versions == [] then [] else
    var last := versions[|versions| - 1];
    HistoryOf(versions[..|versions| - 1], incl) + (if last.incl == incl then [last] else [])
  }

  /** The includes, in the order they are first seen. */
  function Includes(versions: seq<Version>): seq<string> {
    if versions == [] then [] else
    var before, last := Includes(versions[..|versions| - 1]), versions[|versions| - 1];
    if last.incl in before then before else before + [last.incl]
  }

  lemma {:induction false} IncludesOnce(versions: seq<Version>)
    ensures forall inc :: inc in Includes(versions) <==> HistoryOf(versions, inc) != []
    ensures forall i, j | 0 <= i < j < |Includes(versions)| :: Includes(versions)[i] != Includes(versions)[j]
  {
    if versions != [] {
      IncludesOnce(versions[..|versions| - 1]);
    }
  }

  predicate Seen(versions: seq<Version>, n: nat, incl: string) {
    exists i :: 0 <= i < n && i < |versions| && versions[i].incl == incl
  }

  /** First-seen order: of two includes, the earlier one in the list is the one that shows up first. */
  lemma {:induction false} IncludesInOrder(versions: seq<Version>, i: nat, j: nat, n: nat)
    requires i < j < |Includes(versions)| && Seen(versions, n, Includes(versions)[j])
    ensures Seen(versions, n, Includes(versions)[i])
  {
    var m := |versions| - 1;
    var before := Includes(versions[..m]);
    var p :| 0 <= p < n && p < |versions| && versions[p].incl == Includes(versions)[j];
    if j < |before| {
      if p == m && !Seen(versions[..m], n, before[j]) {
        IncludesSeen(versions[..m], before[i]);
        var q :| 0 <= q < m && versions[..m][q].incl == before[i];
        assert versions[q].incl == before[i];
      } else {
        if p < m {
          assert versions[..m][p].incl == before[j];
        }
        IncludesInOrder(versions[..m], i, j, n);
        var q :| 0 <= q < n && q < m && versions[..m][q].incl == before[i];
        assert versions[q].incl == before[i];
      }
    } else {
      IncludesSeen(versions[..m], before[i]);
      IncludesNotSeen(versions[..m], versions[m].incl);
      forall q | 0 <= q < m ensures versions[q].incl != versions[m].incl {
        assert versions[..m][q] == versions[q];
      }
      assert p == m;
      var q :| 0 <= q < m && versions[..m][q].incl == before[i];
      assert versions[q].incl == before[i];
    }
  }

  lemma {:induction false} IncludesSeen(versions: seq<Version>, incl: string)
    requires incl in Includes(versions)
    ensures Seen(versions, |versions|, incl)
  {
    var m := |versions| - 1;
    if versions[m].incl != incl {
      IncludesSeen(versions[..m], incl);
      var q :| 0 <= q < m && versions[..m][q].incl == incl;
      assert versions[q].incl == incl;
    }
  }

  lemma {:induction false} IncludesNotSeen(versions: seq<Version>, incl: string)
    requires incl !in Includes(versions)
    ensures !Seen(versions, |versions|, incl)
  {
    if versions != [] {
      IncludesNotSeen(versions[..|versions| - 1], incl);
      forall q | 0 <= q < |versions| ensures versions[q].incl != incl {
        if q < |versions| - 1 {
          assert versions[..|versions| - 1][q] == versions[q];
          assert !Seen(versions[..|versions| - 1], |versions| - 1, incl);
        }
      }
    }
  }

  /** The includes among order that the transport touched. */
  function Touched(versions: seq<Version>, order: seq<string>, own: set<string>): seq<string> {
    if order == [] then [] else
    var last := order[|order| - 1];
    Touched(versions, order[..|order| - 1], own) + (if AnyInside(HistoryOf(versions, last), own) then [last] else [])
  }

  lemma {:induction false} TouchedMembers(versions: seq<Version>, order: seq<string>, own: set<string>)
    ensures forall inc ::
              inc in Touched(versions, order, own) <==> inc in order && AnyInside(HistoryOf(versions, inc), own)
  {
    if order != [] {
      TouchedMembers(versions, order[..|order| - 1], own);
    }
  }

  predicate Distinct(incls: seq<string>) { forall i, j | 0 <= i < j < |incls| :: incls[i] != incls[j] }

  /** No include is written twice. */
  lemma {:induction false} TouchedOnce(versions: seq<Version>, order: seq<string>, own: set<string>)
    requires Distinct(order)
    ensures Distinct(Touched(versions, order, own))
  {
    if order != [] {
      var n := |order| - 1;
      TouchedOnce(versions, order[..n], own);
      TouchedMembers(versions, order[..n], own);
      var before := Touched(versions, order[..n], own);
      forall i | 0 <= i < |before| ensures before[i] != order[n] {
        assert before[i] in order[..n];
      }
    }
  }

  lemma {:induction false} TouchedPrefix(versions: seq<Version>, order: seq<string>, own: set<string>, n: nat)
    requires n <= |order|
    ensures Touched(versions, order[..n], own) <= Touched(versions, order, own)
    decreases |order|
  {
    if n < |order| {
      TouchedPrefix(versions, order[..|order| - 1], own, n);
      assert order[..|order| - 1][..n] == order[..n];
    } else {
      assert order[..n] == order;
    }
  }

  datatype Plan = Writes(writes: seq<Write>) | NothingTouched | CannotRestore(incl: string)

  /** One write for each include, from its own history. */
  ghost predicate WritesFor(writes: seq<Write>, includes: seq<string>, versions: seq<Version>, own: set<string>) {
    && |writes| == |includes|
    && forall i {:trigger writes[i]} {:trigger includes[i]} | 0 <= i < |writes| ::
         && writes[i].incl == includes[i]
         && IsPreVersion(HistoryOf(versions, includes[i]), own, writes[i].contentURI)
  }

  /** The plan is as promised: every include the transport touched is written exactly once, in
      first-seen order, from its own history, with the version right before the transport; or the
      first touched include without such a version is named; or no include was touched. */
  ghost predicate PlanIsRight(plan: Plan, versions: seq<Version>, own: set<string>) {
    var touched := Touched(versions, Includes(versions), own);
    match plan
    case Writes(writes) =>
      writes != [] && WritesFor(writes, touched, versions, own) && Distinct(touched)
    case NothingTouched => touched == []
    case CannotRestore(incl) => exists i ::
                                  0 <= i < |touched| && IsFirstWithout(versions, touched, own, i) && incl == touched[i]
  }

  ghost predicate IsFirstWithout(versions: seq<Version>, touched: seq<string>, own: set<string>, i: nat)
    requires i < |touched|
  {
    && !HasEarlier(HistoryOf(versions, touched[i]), own)
    && forall j {:trigger touched[j]} | 0 <= j < i :: HasEarlier(HistoryOf(versions, touched[j]), own)
  }

  /** The two maps planRestore builds first. */
  method GroupByInclude(versions: seq<Version>) returns (byInclude: map<string, seq<Version>>, order: seq<string>)
    ensures order == Includes(versions)
    ensures forall inc :: inc in byInclude <==> inc in order
    ensures forall inc | inc in byInclude :: byInclude[inc] == HistoryOf(versions, inc)
  {
    byInclude, order := map[], [];
    for i := 0 to |versions|
      invariant order == Includes(versions[..i])
      invariant forall inc :: inc in byInclude <==> inc in order
      invariant forall inc | inc in byInclude :: byInclude[inc] == HistoryOf(versions[..i], inc)
    {
      var v := versions[i];
      assert versions[..i + 1][..i] == versions[..i];
      IncludesOnce(versions[..i]);
      if v.incl !in byInclude {
        order := order + [v.incl];
      }
      byInclude := byInclude[v.incl := (if v.incl in byInclude then byInclude[v.incl] else []) + [v]];
    }
    assert versions[..|versions|] == versions;
  }

  /** planRestore. */
  method PlanRestore(versions: seq<Version>, transports: seq<string>) returns (plan: Plan)
    ensures PlanIsRight(plan, versions, Folded(transports))
  {
    ghost var own := Folded(transports);
    var byInclude, order := GroupByInclude(versions);
    var writes: seq<Write> := [];
    for i := 0 to |order|
      invariant Planned(writes, versions, order, own, i)
    {
      var incl := order[i];
      var history := byInclude[incl];
      var touched := HistoryHasTransport(history, transports);
      if !touched {
        PassedOver(writes, versions, order, own, i);
        continue;
      }
      var found := FindPreTransportVersion(history, transports);
      if !found.PreVersion? {
        PlanStops(writes, versions, order, own, i);
        return CannotRestore(incl);
      }
      PlannedOneMore(writes, versions, order, own, i, found.uri);
      writes := writes + [Write(incl, found.uri)];
    }
    PlanEnds(writes, versions, order, own);
    if |writes| == 0 {
      return NothingTouched;
    }
    return Writes(writes);
  }

  /** The writes for the first n includes. */
  ghost predicate Planned(writes: seq<Write>, versions: seq<Version>, order: seq<string>, own: set<string>, n: nat) {
    n <= |order| && WritesFor(writes, Touched(versions, order[..n], own), versions, own)
  }

  lemma TouchedSnoc(versions: seq<Version>, order: seq<string>, own: set<string>, n: nat)
    requires n < |order|
    ensures Touched(versions, order[..n + 1], own)
            == Touched(versions, order[..n], own)
               + (if AnyInside(HistoryOf(versions, order[n]), own) then [order[n]] else [])
  {
    assert order[..n + 1][..n] == order[..n];
  }

  lemma PassedOver(writes: seq<Write>, versions: seq<Version>, order: seq<string>, own: set<string>, n: nat)
    requires Planned(writes, versions, order, own, n) && n < |order| && !AnyInside(HistoryOf(versions, order[n]), own)
    ensures Planned(writes, versions, order, own, n + 1)
  {
    TouchedSnoc(versions, order, own, n);
  }

  lemma PlannedOneMore(writes: seq<Write>, versions: seq<Version>, order: seq<string>, own: set<string>, n: nat,
                       uri: string)
    requires Planned(writes, versions, order, own, n) && n < |order| && AnyInside(HistoryOf(versions, order[n]), own)
    requires IsPreVersion(HistoryOf(versions, order[n]), own, uri)
    ensures Planned(writes + [Write(order[n], uri)], versions, order, own, n + 1)
  {
    TouchedSnoc(versions, order, own, n);
  }

  lemma PlanStops(writes: seq<Write>, versions: seq<Version>, order: seq<string>, own: set<string>, n: nat)
    requires Planned(writes, versions, order, own, n) && n < |order| && order == Includes(versions)
    requires AnyInside(HistoryOf(versions, order[n]), own) && !HasEarlier(HistoryOf(versions, order[n]), own)
    ensures PlanIsRight(CannotRestore(order[n]), versions, own)
  {
    var touched, before := Touched(versions, order, own), Touched(versions, order[..n], own);
    TouchedSnoc(versions, order, own, n);
    TouchedPrefix(versions, order, own, n + 1);
    forall j {:trigger touched[j]} | 0 <= j < |before| ensures HasEarlier(HistoryOf(versions, touched[j]), own) {
      assert touched[j] == before[j];
      assert IsPreVersion(HistoryOf(versions, before[j]), own, writes[j].contentURI);
    }
    assert IsFirstWithout(versions, touched, own, |before|);
  }

  lemma PlanEnds(writes: seq<Write>, versions: seq<Version>, order: seq<string>, own: set<string>)
    requires Planned(writes, versions, order, own, |order|) && order == Includes(versions)
    ensures PlanIsRight(if writes == [] then NothingTouched else Writes(writes), versions, own)
  {
    assert order[..|order|] == order;
    IncludesOnce(versions);
    TouchedOnce(versions, order, own);
  }

  /** The transport touched something, and every include it touched has a version right before it. */
  ghost predicate Restorable(versions: seq<Version>, own: set<string>) {
    && AnyInside(versions, own)
    && forall inc | AnyInside(HistoryOf(versions, inc), own) :: HasEarlier(HistoryOf(versions, inc), own)
  }

  lemma WritesAreForAll(writes: seq<Write>, versions: seq<Version>, own: set<string>)
    requires PlanIsRight(Writes(writes), versions, own)
    ensures Restorable(versions, own)
  {
    var touched := Touched(versions, Includes(versions), own);
    TouchedMeans(versions, own);
    assert touched[0] in touched;
    InsideSomewhere(versions, own, touched[0]);
    forall inc | AnyInside(HistoryOf(versions, inc), own)
      ensures HasEarlier(HistoryOf(versions, inc), own)
    {
      assert inc in touched;
      var i :| 0 <= i < |touched| && touched[i] == inc;
      assert IsPreVersion(HistoryOf(versions, touched[i]), own, writes[i].contentURI);
    }
  }

  lemma TouchedMeans(versions: seq<Version>, own: set<string>)
    ensures forall inc ::
              inc in Touched(versions, Includes(versions), own) <==> AnyInside(HistoryOf(versions, inc), own)
  {
    TouchedMembers(versions, Includes(versions), own);
    IncludesOnce(versions);
    forall inc | AnyInside(HistoryOf(versions, inc), own) ensures inc in Includes(versions) {
      assert HistoryOf(versions, inc) != [];
    }
  }

  /** The plan exists exactly when the object is restorable. */
  lemma PlanExistsExactly(plan: Plan, versions: seq<Version>, own: set<string>)
    requires PlanIsRight(plan, versions, own)
    ensures plan.Writes? <==> Restorable(versions, own)
  {
    if plan.Writes? {
      WritesAreForAll(plan.writes, versions, own);
    } else {
      TouchedMeans(versions, own);
      if AnyInside(versions, own) {
        var inc := InsideSomeHistory(versions, own);
        assert inc in Touched(versions, Includes(versions), own);
      }
    }
  }

  lemma InsideSomewhere(versions: seq<Version>, own: set<string>, incl: string)
    requires AnyInside(HistoryOf(versions, incl), own)
    ensures AnyInside(versions, own)
  {
    var h := HistoryOf(versions, incl);
    var i :| 0 <= i < |h| && Inside(h[i], own);
    InHistory(versions, incl, h[i]);
    var k :| 0 <= k < |versions| && versions[k] == h[i];
    assert Inside(versions[k], own);
  }

  lemma InsideSomeHistory(versions: seq<Version>, own: set<string>) returns (incl: string)
    requires AnyInside(versions, own)
    ensures AnyInside(HistoryOf(versions, incl), own)
  {
    var i :| 0 <= i < |versions| && Inside(versions[i], own);
    incl := versions[i].incl;
    InHistory(versions, incl, versions[i]);
    var h := HistoryOf(versions, incl);
    var k :| 0 <= k < |h| && h[k] == versions[i];
    assert Inside(h[k], own);
  }

  lemma {:induction false} InHistory(versions: seq<Version>, incl: string, v: Version)
    ensures v in HistoryOf(versions, incl) <==> v in versions && v.incl == incl
  {
    if versions != [] {
      InHistory(versions[..|versions| - 1], incl, v);
      assert versions == versions[..|versions| - 1] + [versions[|versions| - 1]];
    }
  }

  /** An object the transport created has nothing to restore. */
  lemma CreatedIsNeverPlanned(plan: Plan, versions: seq<Version>, own: set<string>)
    requires PlanIsRight(plan, versions, own) && versions != [] && AllInside(versions, own)
    ensures plan.CannotRestore?
  {
    PlanExistsExactly(plan, versions, own);
    var inc := versions[0].incl;
    assert Inside(versions[0], own);
    InHistory(versions, inc, versions[0]);
    var h := HistoryOf(versions, inc);
    assert AnyInside(h, own);
    forall i | 0 <= i < |h| ensures Inside(h[i], own) {
      InHistory(versions, inc, h[i]);
    }
    NothingBefore(h, own, 0);
    TouchedMeans(versions, own);
  }
}
