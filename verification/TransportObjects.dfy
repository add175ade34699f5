/** Collecting transport objects without duplicates (adt/transport.go, transportObjectDeduper). */
module TransportObjects {
  datatype TransportObject = TransportObject(pgmid: string, typ: string, name: string,
                                             wbtype: string, position: string, task: string)

  /** The key of the index map. */
  function Key(o: TransportObject): string { o.pgmid + "/" + o.typ + "/" + o.name }

  predicate Same(a: TransportObject, b: TransportObject) { a.pgmid == b.pgmid && a.typ == b.typ && a.name == b.name }

  // ---------------------------------------------------------------------------
  // The plain fold
  // ---------------------------------------------------------------------------

  /** Where the object with this key is, if anywhere. */
  function IndexOf(objects: seq<TransportObject>, key: string): int
    ensures -1 <= IndexOf(objects, key) < |objects|
    ensures IndexOf(objects, key) >= 0 ==> Key(objects[IndexOf(objects, key)]) == key
    ensures IndexOf(objects, key) == -1
            <==> forall i {:trigger objects[i]} | 0 <= i < |objects| :: Key(objects[i]) != key
  {
    if objects == [] then -1
    else if Key(objects[|objects| - 1]) == key then |objects| - 1
    else IndexOf(objects[..|objects| - 1], key)
  }

  /** A new key is appended; a known one only gets the task it does not have yet. */
  function Added(objects: seq<TransportObject>, o: TransportObject): seq<TransportObject> {
    var i := IndexOf(objects, Key(o));
    if o.name == "" then objects
    else if i < 0 then objects + [o]
    else if objects[i].task == "" && o.task != "" then objects[i := objects[i].(task := o.task)]
    else objects
  }

  function AllAdded(occurrences: seq<TransportObject>): seq<TransportObject> {
    if occurrences == [] then [] else Added(AllAdded(occurrences[..|occurrences| - 1]), occurrences[|occurrences| - 1])
  }

  // ---------------------------------------------------------------------------
  // The indexed deduper
  // ---------------------------------------------------------------------------

  /** The index and the list agree: each entry is indexed under its key, and nothing else is. */
  ghost predicate Agree(index: map<string, nat>, objects: seq<TransportObject>) {
    && (forall k | k in index :: index[k] < |objects| && Key(objects[index[k]]) == k)
    && (forall i {:trigger objects[i]} | 0 <= i < |objects| :: Key(objects[i]) in index && index[Key(objects[i])] == i)
  }

  lemma IndexFinds(index: map<string, nat>, objects: seq<TransportObject>, key: string)
    requires Agree(index, objects)
    ensures IndexOf(objects, key) == if key in index then index[key] else -1
  {}

  lemma AgreeWithTask(index: map<string, nat>, objects: seq<TransportObject>, i: nat, task: string)
    requires Agree(index, objects) && i < |objects|
    ensures Agree(index, objects[i := objects[i].(task := task)])
  {
    assert Key(objects[i].(task := task)) == Key(objects[i]);
  }

  lemma AgreeWithNew(index: map<string, nat>, objects: seq<TransportObject>, o: TransportObject)
    requires Agree(index, objects) && Key(o) !in index
    ensures Agree(index[Key(o) := |objects|], objects + [o])
  {}

  class Deduper {
    var index: map<string, nat>
    var objects: seq<TransportObject>

    ghost predicate Valid()
      reads this
    {
      Agree(index, objects)
    }

    constructor ()
      ensures Valid() && objects == []
    {
      index, objects := map[], [];
    }

    method Add(pgmid: string, typ: string, name: string, wbtype: string, position: string, task: string)
      requires Valid()
      modifies this
      ensures Valid()
      ensures objects == Added(old(objects), TransportObject(pgmid, typ, name, wbtype, position, task))
    {
      if name == "" {
        return;
      }
      var key := pgmid + "/" + typ + "/" + name;
      ghost var o := TransportObject(pgmid, typ, name, wbtype, position, task);
      assert key == Key(o);
      IndexFinds(index, objects, key);
      if key in index {
        var idx := index[key];
        if objects[idx].task == "" && task != "" {
          AgreeWithTask(index, objects, idx, task);
          objects := objects[idx := objects[idx].(task := task)];
        }
        return;
      }
      AgreeWithNew(index, objects, o);
      index := index[key := |objects|];
      objects := objects + [TransportObject(pgmid, typ, name, wbtype, position, task)];
    }

    method AddAll(occurrences: seq<TransportObject>)
      requires Valid() && objects == []
      modifies this
      ensures Valid() && objects == AllAdded(occurrences)
    {
      for i := 0 to |occurrences|
        invariant Valid() && objects == AllAdded(occurrences[..i])
      {
        var o := occurrences[i];
        assert occurrences[..i + 1][..i] == occurrences[..i];
        Add(o.pgmid, o.typ, o.name, o.wbtype, o.position, o.task);
      }
      assert occurrences[..|occurrences|] == occurrences;
    }
  }

  // ---------------------------------------------------------------------------
  // What the list says
  // ---------------------------------------------------------------------------

  /** The first occurrence with the key. */
  predicate IsFirst(occurrences: seq<TransportObject>, i: int) {
    0 <= i < |occurrences| && occurrences[i].name != ""
    && forall j {:trigger occurrences[j]} | 0 <= j < i ::
         occurrences[j].name == "" || Key(occurrences[j]) != Key(occurrences[i])
  }

  /** The first task given to the key, if any was. */
  function FirstTask(occurrences: seq<TransportObject>, key: string): string {
    if occurrences == [] then "" else
    var n := |occurrences| - 1;
    var before := FirstTask(occurrences[..n], key);
    if before == "" && occurrences[n].name != "" && Key(occurrences[n]) == key then occurrences[n].task else before
  }

  /** The first occurrences of all keys, in order. */
  function Firsts(occurrences: seq<TransportObject>): seq<TransportObject> {
    if occurrences == [] then [] else
    var n := |occurrences| - 1;
    Firsts(occurrences[..n]) + (if IsFirst(occurrences, n) then [occurrences[n]] else [])
  }

  function WithTasks(firsts: seq<TransportObject>, occurrences: seq<TransportObject>): (r: seq<TransportObject>)
    ensures |r| == |firsts|
    ensures forall i {:trigger r[i]} | 0 <= i < |r| ::
              r[i] == firsts[i].(task := FirstTask(occurrences, Key(firsts[i])))
  {
    seq(|firsts|, i requires 0 <= i < |firsts| => firsts[i].(task := FirstTask(occurrences, Key(firsts[i]))))
  }

  predicate HasKey(objects: seq<TransportObject>, key: string) {
    exists i :: 0 <= i < |objects| && Key(objects[i]) == key
  }

  ghost predicate DistinctKeys(objects: seq<TransportObject>) {
    forall i, j {:trigger objects[i], objects[j]} | 0 <= i < j < |objects| :: Key(objects[i]) != Key(objects[j])
  }

  /** Some occurrence with a name has the key. */
  ghost predicate Occurs(occurrences: seq<TransportObject>, key: string) {
    exists i :: 0 <= i < |occurrences| && occurrences[i].name != "" && Key(occurrences[i]) == key
  }

  lemma HasKeySnoc(objects: seq<TransportObject>, o: TransportObject, key: string)
    ensures HasKey(objects + [o], key) <==> HasKey(objects, key) || Key(o) == key
  {
    var all := objects + [o];
    assert all[|objects|] == o;
    assert forall i | 0 <= i < |objects| :: all[i] == objects[i];
    if HasKey(objects, key) {
      var i :| 0 <= i < |objects| && Key(objects[i]) == key;
      assert Key(all[i]) == key;
    }
  }

  lemma OccursSnoc(occurrences: seq<TransportObject>, o: TransportObject, key: string)
    ensures Occurs(occurrences + [o], key) <==> Occurs(occurrences, key) || (o.name != "" && Key(o) == key)
  {
    var all := occurrences + [o];
    assert all[|occurrences|] == o;
    assert forall i | 0 <= i < |occurrences| :: all[i] == occurrences[i];
    if Occurs(occurrences, key) {
      var i :| 0 <= i < |occurrences| && occurrences[i].name != "" && Key(occurrences[i]) == key;
      assert all[i].name != "" && Key(all[i]) == key;
    }
  }

  lemma FirstExactly(occurrences: seq<TransportObject>, n: nat)
    requires n == |occurrences| - 1
    ensures IsFirst(occurrences, n) <==> occurrences[n].name != "" && !Occurs(occurrences[..n], Key(occurrences[n]))
  {
    assert forall i | 0 <= i < n :: occurrences[..n][i] == occurrences[i];
  }

  lemma {:induction false} FirstsOccur(occurrences: seq<TransportObject>, key: string)
    ensures HasKey(Firsts(occurrences), key) <==> Occurs(occurrences, key)
  {
    if occurrences != [] {
      var n := |occurrences| - 1;
      var o := occurrences[n];
      FirstsOccur(occurrences[..n], key);
      FirstExactly(occurrences, n);
      var before := Firsts(occurrences[..n]);
      HasKeySnoc(before, o, key);
      assert before + [] == before;
      assert occurrences[..n] + [o] == occurrences;
      OccursSnoc(occurrences[..n], o, key);
      assert Occurs(occurrences, key) <==> Occurs(occurrences[..n], key) || (o.name != "" && Key(o) == key);
      if Key(o) == key {
        assert IsFirst(occurrences, n) <==> o.name != "" && !Occurs(occurrences[..n], key);
      }
    }
  }

  lemma {:induction false} FirstsOnce(occurrences: seq<TransportObject>)
    ensures DistinctKeys(Firsts(occurrences))
  {
    if occurrences != [] {
      var n := |occurrences| - 1;
      FirstsOnce(occurrences[..n]);
      FirstExactly(occurrences, n);
      FirstsOccur(occurrences[..n], Key(occurrences[n]));
    }
  }

  /** The main result: the list has the first occurrence of every key, in first-seen order, with all
      its fields but the task, which is the first one any occurrence of the key carries. */
  lemma {:induction false} ListIsFirstsWithTasks(occurrences: seq<TransportObject>)
    ensures AllAdded(occurrences) == WithTasks(Firsts(occurrences), occurrences)
  {
    if occurrences != [] {
      var n := |occurrences| - 1;
      ListIsFirstsWithTasks(occurrences[..n]);
      FirstsOnce(occurrences[..n]);
      FirstExactly(occurrences, n);
      FirstsOccur(occurrences[..n], Key(occurrences[n]));
      if !HasKey(Firsts(occurrences[..n]), Key(occurrences[n])) {
        NoTaskYet(occurrences[..n], Key(occurrences[n]));
      }
      var firsts, list, o := Firsts(occurrences[..n]), AllAdded(occurrences[..n]), occurrences[n];
      KeysKept(firsts, list);
      if IsFirst(occurrences, n) {
        TaskStep(occurrences, n, Key(o));
        AddedNew(occurrences, n, firsts, list, o);
      } else {
        AddedKnown(occurrences, n, firsts, list, o);
      }
    }
  }

  lemma {:induction false} NoTaskYet(occurrences: seq<TransportObject>, key: string)
    requires forall i {:trigger occurrences[i]} | 0 <= i < |occurrences| ::
               occurrences[i].name == "" || Key(occurrences[i]) != key
    ensures FirstTask(occurrences, key) == ""
  {
    if occurrences != [] {
      NoTaskYet(occurrences[..|occurrences| - 1], key);
    }
  }

  lemma TaskStep(occurrences: seq<TransportObject>, n: nat, key: string)
    requires n == |occurrences| - 1
    ensures FirstTask(occurrences, key)
            == if FirstTask(occurrences[..n], key) == "" && occurrences[n].name != "" && Key(occurrences[n]) == key
               then occurrences[n].task else FirstTask(occurrences[..n], key)
  {}

  lemma AddedNew(occurrences: seq<TransportObject>, n: nat, firsts: seq<TransportObject>, list: seq<TransportObject>,
                 o: TransportObject)
    requires n == |occurrences| - 1 && o == occurrences[n] && o.name != ""
    requires list == WithTasks(firsts, occurrences[..n]) && !HasKey(firsts, Key(o))
    requires forall i {:trigger list[i]} | 0 <= i < |list| :: Key(list[i]) == Key(firsts[i])
    requires FirstTask(occurrences, Key(o)) == o.task
    ensures Added(list, o) == WithTasks(firsts + [o], occurrences)
  {
    NotInList(list, firsts, Key(o));
    TasksKept(occurrences, n, firsts, o);
  }

  lemma NotInList(list: seq<TransportObject>, firsts: seq<TransportObject>, key: string)
    requires |list| == |firsts| && !HasKey(firsts, key)
    requires forall i {:trigger list[i]} | 0 <= i < |list| :: Key(list[i]) == Key(firsts[i])
    ensures IndexOf(list, key) == -1
  {
    forall j {:trigger list[j]} | 0 <= j < |list| ensures Key(list[j]) != key {
      assert Key(list[j]) == Key(firsts[j]);
    }
  }

  lemma TasksKept(occurrences: seq<TransportObject>, n: nat, firsts: seq<TransportObject>, o: TransportObject)
    requires n == |occurrences| - 1 && o == occurrences[n] && !HasKey(firsts, Key(o))
             && FirstTask(occurrences, Key(o)) == o.task
    ensures WithTasks(firsts + [o], occurrences) == WithTasks(firsts, occurrences[..n]) + [o]
  {
    var before, after := WithTasks(firsts, occurrences[..n]), WithTasks(firsts + [o], occurrences);
    forall j | 0 <= j < |firsts| ensures after[j] == before[j] {
      TaskStep(occurrences, n, Key(firsts[j]));
    }
    assert after[|firsts|] == o;
  }

  lemma AddedKnown(occurrences: seq<TransportObject>, n: nat, firsts: seq<TransportObject>, list: seq<TransportObject>,
                   o: TransportObject)
    requires n == |occurrences| - 1 && o == occurrences[n] && (o.name == "" || HasKey(firsts, Key(o)))
    requires list == WithTasks(firsts, occurrences[..n]) && DistinctKeys(firsts)
    requires forall i {:trigger list[i]} | 0 <= i < |list| :: Key(list[i]) == Key(firsts[i])
    ensures Added(list, o) == WithTasks(firsts, occurrences)
  {
    var after := WithTasks(firsts, occurrences);
    var i := IndexOf(list, Key(o));
    if o.name != "" {
      var k :| 0 <= k < |firsts| && Key(firsts[k]) == Key(o);
      assert Key(list[k]) == Key(o);
      assert Key(firsts[i]) == Key(list[i]) == Key(o);
    }
    forall j | 0 <= j < |list| ensures after[j] == Added(list, o)[j] {
      TaskStep(occurrences, n, Key(firsts[j]));
      assert o.name != "" && j != i ==> Key(firsts[j]) != Key(o);
    }
  }

  lemma KeysKept(firsts: seq<TransportObject>, list: seq<TransportObject>)
    requires |firsts| == |list| && forall i | 0 <= i < |list| :: list[i] == firsts[i].(task := list[i].task)
    ensures forall i {:trigger list[i]} | 0 <= i < |list| :: Key(list[i]) == Key(firsts[i])
  {}

  // ---------------------------------------------------------------------------
  // Keys and objects
  // ---------------------------------------------------------------------------

  /** Program id and type. */
  datatype Kind = Kind(pgmid: string, typ: string)

  function KindOf(o: TransportObject): Kind { Kind(o.pgmid, o.typ) }

  /** What the keys of one kind begin with. */
  function Head(k: Kind): string { k.pgmid + "/" + k.typ + "/" }

  /** Different kinds whose keys cannot be told apart for some names. */
  predicate Clash(a: Kind, b: Kind) { a != b && (Head(a) <= Head(b) || Head(b) <= Head(a)) }

  /** Some name of kind a and some name of kind b share a key. */
  ghost predicate ShareKey(a: Kind, b: Kind) { exists n, m :: n != "" && m != "" && Head(a) + n == Head(b) + m }

  /** Different kinds share a key exactly when the head of one begins the head of the other. */
  lemma ClashExactly(a: Kind, b: Kind)
    requires a != b
    ensures ShareKey(a, b) <==> Clash(a, b)
  {
    if Head(a) <= Head(b) {
      var name := Head(b)[|Head(a)|..] + "X";
      assert Head(a) + name == Head(b) + "X";
    } else if Head(b) <= Head(a) {
      var name := Head(a)[|Head(b)|..] + "X";
      assert Head(b) + name == Head(a) + "X";
    } else if n, m :| n != "" && m != "" && Head(a) + n == Head(b) + m {
      OnePrefix(Head(a), n, Head(b), m);
    }
  }

  lemma OnePrefix(a: string, s: string, b: string, t: string)
    requires a + s == b + t
    ensures a <= b || b <= a
  {
    var whole := a + s;
    assert whole[..|a|] == a && whole[..|b|] == b;
    if |a| <= |b| {
      assert b[..|a|] == whole[..|a|];
    } else {
      assert a[..|b|] == whole[..|b|];
    }
  }

  /** Without a slash in program id and type no kinds clash; with one they need not. */
  lemma SlashFreeDoesNotClash(a: Kind, b: Kind)
    requires '/' !in a.pgmid && '/' !in a.typ && '/' !in b.pgmid && '/' !in b.typ
    ensures !Clash(a, b)
  {
    if Clash(a, b) {
      ClashExactly(a, b);
      var n, m :| n != "" && m != "" && Head(a) + n == Head(b) + m;
      assert Head(a) + n == a.pgmid + "/" + (a.typ + "/" + n) && Head(b) + m == b.pgmid + "/" + (b.typ + "/" + m);
      CutAtSlash(a.pgmid, a.typ + "/" + n, b.pgmid, b.typ + "/" + m);
      CutAtSlash(a.typ, n, b.typ, m);
    }
  }

  lemma ShorterDiffers(a: string, s: string, b: string, t: string)
    requires |a| < |b| && '/' !in b
    ensures a + "/" + s != b + "/" + t
  {
    assert (a + "/" + s)[|a|] == '/' && (b + "/" + t)[|a|] == b[|a|];
  }

  lemma CutAtSlash(a: string, s: string, b: string, t: string)
    requires '/' !in a && '/' !in b && a + "/" + s == b + "/" + t
    ensures a == b && s == t
  {
    if |a| < |b| {
      ShorterDiffers(a, s, b, t);
    } else if |b| < |a| {
      ShorterDiffers(b, t, a, s);
    } else {
      var x, y := a + "/" + s, b + "/" + t;
      assert x[..|a|] == a && y[..|b|] == b && x[|a| + 1..] == s && y[|b| + 1..] == t;
    }
  }

  /** The key tells two objects apart unless their kinds clash. */
  lemma KeyMeansSame(a: TransportObject, b: TransportObject)
    requires !Clash(KindOf(a), KindOf(b)) && a.name != "" && b.name != ""
    ensures Key(a) == Key(b) <==> Same(a, b)
  {
    if Key(a) == Key(b) {
      assert Head(KindOf(a)) + a.name == Head(KindOf(b)) + b.name;
      if KindOf(a) != KindOf(b) {
        ClashExactly(KindOf(a), KindOf(b));
      } else {
        var h, whole := Head(KindOf(a)), Key(a);
        assert whole[|h|..] == a.name && whole[|h|..] == b.name;
      }
    }
  }

  // What that means for the list

  ghost predicate KindsIn(occurrences: seq<TransportObject>, kinds: set<Kind>) {
    forall i {:trigger occurrences[i]} | 0 <= i < |occurrences| :: KindOf(occurrences[i]) in kinds
  }

  ghost predicate Holds(objects: seq<TransportObject>, o: TransportObject) {
    exists i :: 0 <= i < |objects| && Same(objects[i], o)
  }

  /** Every object that occurs under a name is in the list. */
  ghost predicate KeepsAll(occurrences: seq<TransportObject>) {
    forall i {:trigger occurrences[i]} | 0 <= i < |occurrences| && occurrences[i].name != "" ::
      Holds(AllAdded(occurrences), occurrences[i])
  }

  ghost predicate NoneClash(kinds: set<Kind>) { forall a, b | a in kinds && b in kinds :: !Clash(a, b) }

  /** The first occurrences are occurrences. */
  lemma {:induction false} FirstsAreOccurrences(occurrences: seq<TransportObject>)
    ensures forall o | o in Firsts(occurrences) :: o in occurrences && o.name != ""
  {
    if occurrences != [] {
      var n := |occurrences| - 1;
      FirstsAreOccurrences(occurrences[..n]);
      assert occurrences == occurrences[..n] + [occurrences[n]];
    }
  }

  lemma NoneClashKeepsAll(occurrences: seq<TransportObject>, kinds: set<Kind>)
    requires KindsIn(occurrences, kinds) && NoneClash(kinds)
    ensures KeepsAll(occurrences)
  {
    var firsts, list := Firsts(occurrences), AllAdded(occurrences);
    ListIsFirstsWithTasks(occurrences);
    FirstsAreOccurrences(occurrences);
    forall i {:trigger occurrences[i]} | 0 <= i < |occurrences| && occurrences[i].name != ""
      ensures Holds(list, occurrences[i])
    {
      var o := occurrences[i];
      FirstsOccur(occurrences, Key(o));
      var j :| 0 <= j < |firsts| && Key(firsts[j]) == Key(o);
      assert firsts[j] in firsts;
      var k :| 0 <= k < |occurrences| && occurrences[k] == firsts[j];
      KeyMeansSame(firsts[j], o);
      assert Same(list[j], o);
    }
  }

  /** Two objects of kinds that clash, of which the second is dropped. */
  lemma ClashDrops(a: Kind, b: Kind) returns (occurrences: seq<TransportObject>)
    requires Clash(a, b)
    ensures KindsIn(occurrences, {a, b}) && !KeepsAll(occurrences)
  {
    ClashExactly(a, b);
    var n, m :| n != "" && m != "" && Head(a) + n == Head(b) + m;
    var x, y := TransportObject(a.pgmid, a.typ, n, "", "", ""), TransportObject(b.pgmid, b.typ, m, "", "", "");
    occurrences := [x, y];
    assert Key(x) == Head(a) + n && Key(y) == Head(b) + m;
    SecondIsDropped(x, y);
    assert KindOf(x) == a && KindOf(y) == b && occurrences[1] == y && !Same(x, y);
  }

  lemma SecondIsDropped(x: TransportObject, y: TransportObject)
    requires Key(x) == Key(y) && x.name != "" && y.name != "" && y.task == ""
    ensures AllAdded([x, y]) == [x]
  {
    assert [x, y][..1] == [x] && [x][..0] == [];
    assert AllAdded([x]) == [x];
    assert IndexOf([x], Key(y)) == 0;
  }

  /** The list keeps every object of these kinds, whatever occurs, exactly when none of them clash. */
  lemma KeepsAllExactly(kinds: set<Kind>)
    ensures (forall occurrences | KindsIn(occurrences, kinds) :: KeepsAll(occurrences)) <==> NoneClash(kinds)
  {
    if NoneClash(kinds) {
      forall occurrences | KindsIn(occurrences, kinds) ensures KeepsAll(occurrences) {
        NoneClashKeepsAll(occurrences, kinds);
      }
    } else {
      var a, b :| a in kinds && b in kinds && Clash(a, b);
      var occurrences := ClashDrops(a, b);
      assert KindsIn(occurrences, kinds);
    }
  }

  /** Two kinds that clash, and two that hold a slash and do not. */
  lemma SlashesMayClash()
    ensures Clash(Kind("R3TR", "A/B"), Kind("R3TR", "A")) && !Clash(Kind("R3TR", "A/B"), Kind("R3TR", "C"))
  {
    var ab, a, c := Head(Kind("R3TR", "A/B")), Head(Kind("R3TR", "A")), Head(Kind("R3TR", "C"));
    assert a <= ab;
    assert ab[5] == 'A' && c[5] == 'C';
  }
}
