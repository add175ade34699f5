/** Source patches (adt/patch.go): line ops applied bottom-up in place, then search-and-replace.

    The reference is simultaneous application: every op speaks of the original line numbers and
    the ops are a set, so neither their order nor the order an unstable sort leaves ties in can
    matter. The bottom-up loop is proved to compute it, exactly when the ops are in range and
    pairwise disjoint. */
module Patch {
  import opened Text

  datatype PatchOp =
    | Insert(afterLine: int, content: string)
    | Replace(fromLine: int, toLine: int, content: string)
    | Delete(fromLine: int, toLine: int)
    | SearchReplace(search: string, replace: string, all: bool)
    | Unknown(typ: string, fromLine: int)

  datatype Result<T> = Ok(value: T) | Err

  function PrimaryKey(op: PatchOp): int {
    match op
    case Insert(after, _) => after
    case Replace(from, _, _) => from
    case Delete(from, _) => from
    case _ => 0
  }

  function OpStartLine(op: PatchOp): int {
    match op
    case Insert(after, _) => after
    case Replace(from, _, _) => from
    case Delete(from, _) => from
    case Unknown(_, from) => from
    case SearchReplace(_, _, _) => 0
  }

  function OpEndLine(op: PatchOp): int {
    match op
    case Insert(after, _) => after
    case Replace(_, to, _) => to
    case Delete(_, to) => to
    case _ => 0
  }

  /** The overlap test of the program for two neighbours of the sorted list. */
  predicate Overlap(a: PatchOp, b: PatchOp) {
    PrimaryKey(a) <= OpEndLine(b) && OpStartLine(b) <= OpEndLine(a)
  }

  function SplitLines(source: string): seq<string> {
    if source == "" then [] else Split(source, '\n')
  }

  function JoinLines(lines: seq<string>): string { Join(lines, "\n") }

  function ApplyLineOp(lines: seq<string>, op: PatchOp): Result<seq<string>> {
    var n := |lines|;
    match op
    case Insert(after, content) =>
      if after < 0 || after > n then Err else Ok(lines[..after] + [content] + lines[after..])
    case Replace(from, to, content) =>
      if from < 1 || to < from || to > n then Err else Ok(lines[..from - 1] + [content] + lines[to..])
    case Delete(from, to) =>
      if from < 1 || to < from || to > n then Err else Ok(lines[..from - 1] + lines[to..])
    case _ => Err
  }

  // ---------------------------------------------------------------------------
  // The reference: simultaneous application
  // ---------------------------------------------------------------------------

  /** The op speaks of lines that exist in a source of n lines. */
  predicate InRange(op: PatchOp, n: nat) {
    match op
    case Insert(after, _) => 0 <= after <= n
    case Replace(from, to, _) => 1 <= from <= to <= n
    case Delete(from, to) => 1 <= from <= to <= n
    case _ => false
  }

  /** The closed ranges of a and b share no line; an insert is the single point afterLine. */
  predicate Apart(a: PatchOp, b: PatchOp) {
    OpEndLine(a) < OpStartLine(b) || OpEndLine(b) < OpStartLine(a)
  }

  predicate PairwiseApart(ops: seq<PatchOp>) {
    forall i, j | 0 <= i < j < |ops| :: Apart(ops[i], ops[j])
  }

  predicate Applicable(ops: seq<PatchOp>, n: nat) {
    (forall op | op in ops :: InRange(op, n)) && PairwiseApart(ops)
  }

  /** Some op replaces or deletes the 1-based line k. */
  ghost predicate Covered(ops: set<PatchOp>, k: int) {
    exists op | op in ops :: (op.Replace? || op.Delete?) && op.fromLine <= k <= op.toLine
  }

  predicate InsertsAt(op: PatchOp, k: int) { op.Insert? && op.afterLine == k }

  predicate ReplacesFrom(op: PatchOp, k: int) { op.Replace? && op.fromLine == k }

  /** What is inserted after the original line k. */
  ghost function Gap(ops: set<PatchOp>, k: int): seq<string> {
    if exists op | op in ops :: InsertsAt(op, k) then
      var op :| op in ops && InsertsAt(op, k); [op.content]
    else []
  }

  /** What stands at the original line k before the line itself, if it is kept. */
  ghost function Replacement(ops: set<PatchOp>, k: int): seq<string> {
    if exists op | op in ops :: ReplacesFrom(op, k) then
      var op :| op in ops && ReplacesFrom(op, k); [op.content]
    else []
  }

  /** All ops at once: the result from the gap after the original line k on. */
  ghost function FromGap(lines: seq<string>, ops: set<PatchOp>, k: nat): seq<string>
    requires k <= |lines|
    decreases |lines| - k, 1
  {
    Gap(ops, k) + FromLineAfter(lines, ops, k)
  }

  ghost function FromLineAfter(lines: seq<string>, ops: set<PatchOp>, k: nat): seq<string>
    requires k <= |lines|
    decreases |lines| - k, 0
  {
    if k == |lines| then [] else
    Replacement(ops, k + 1) + (if Covered(ops, k + 1) then [] else [lines[k]]) + FromGap(lines, ops, k + 1)
  }

  ghost function Simultaneous(lines: seq<string>, ops: set<PatchOp>): seq<string> {
    FromGap(lines, ops, 0)
  }

  // ---------------------------------------------------------------------------
  // Bottom-up application
  // ---------------------------------------------------------------------------

  function ApplyAll(lines: seq<string>, ops: seq<PatchOp>): Result<seq<string>>
    decreases |ops|
  {
    if ops == [] then Ok(lines) else
    match ApplyLineOp(lines, ops[0])
    case Err => Err
    case Ok(lines') => ApplyAll(lines', ops[1..])
  }

  predicate Descending(ops: seq<PatchOp>) {
    forall i, j | 0 <= i < j < |ops| :: PrimaryKey(ops[i]) >= PrimaryKey(ops[j])
  }

  predicate NeighboursApart(ops: seq<PatchOp>) {
    forall i | 0 <= i < |ops| - 1 :: !Overlap(ops[i], ops[i + 1])
  }

  /** What makes an op valid apart from the upper bound. */
  predicate WellFormed(op: PatchOp) {
    match op
    case Insert(after, _) => 0 <= after
    case Replace(from, to, _) => 1 <= from <= to
    case Delete(from, to) => 1 <= from <= to
    case _ => false
  }

  /** Each op starts after every later one ends. */
  predicate Chain(ops: seq<PatchOp>) {
    forall i, j | 0 <= i < j < |ops| :: OpEndLine(ops[j]) < OpStartLine(ops[i])
  }

  /** Comparing neighbours of the sorted list is enough. */
  lemma {:induction false} NeighboursGiveChain(ops: seq<PatchOp>)
    requires Descending(ops) && NeighboursApart(ops) && forall i | 0 <= i < |ops| :: WellFormed(ops[i])
    ensures Chain(ops)
  {
    if |ops| > 1 {
      var rest := ops[1..];
      TailOfSorted(ops);
      NeighboursGiveChain(rest);
      assert !Overlap(ops[0], ops[1]);
      forall i, j | 0 <= i < j < |ops| ensures OpEndLine(ops[j]) < OpStartLine(ops[i]) {
        if i > 0 {
          assert ops[i] == rest[i - 1] && ops[j] == rest[j - 1];
        } else if j > 1 {
          assert ops[j] == rest[j - 1] && OpEndLine(rest[j - 1]) < OpStartLine(rest[0]);
        }
      }
    }
  }

  lemma TailOfSorted(ops: seq<PatchOp>)
    requires Descending(ops) && NeighboursApart(ops) && ops != []
    ensures Descending(ops[1..]) && NeighboursApart(ops[1..])
  {
    var rest := ops[1..];
    assert forall i | 0 <= i < |rest| - 1 :: Overlap(rest[i], rest[i + 1]) == Overlap(ops[i + 1], ops[i + 2]);
  }

  lemma NeighboursSuffice(ops: seq<PatchOp>)
    requires Descending(ops) && forall i | 0 <= i < |ops| :: WellFormed(ops[i])
    ensures NeighboursApart(ops) <==> PairwiseApart(ops)
  {
    if NeighboursApart(ops) {
      NeighboursGiveChain(ops);
    } else {
      var i :| 0 <= i < |ops| - 1 && Overlap(ops[i], ops[i + 1]);
      assert !Apart(ops[i], ops[i + 1]);
    }
  }

  /** After the first op, the ops below it are in range exactly as they were. */
  lemma LaterOpsStayInRange(lines: seq<string>, a: PatchOp, b: PatchOp)
    requires InRange(a, |lines|) && WellFormed(b)
    requires OpEndLine(b) < OpStartLine(a)
    ensures InRange(b, |lines|) && InRange(b, |ApplyLineOp(lines, a).value|)
  {}

  /** The loop succeeds exactly when every op is in range of the original source. */
  lemma {:induction false} ApplyAllSucceeds(lines: seq<string>, ops: seq<PatchOp>)
    requires Descending(ops) && NeighboursApart(ops)
    ensures ApplyAll(lines, ops).Ok? <==> forall i | 0 <= i < |ops| :: InRange(ops[i], |lines|)
    decreases |ops|
  {
    if ops != [] && InRange(ops[0], |lines|) {
      var a, rest := ops[0], ops[1..];
      var lines' := ApplyLineOp(lines, a).value;
      TailOfSorted(ops);
      ApplyAllSucceeds(lines', rest);
      if i :| 0 <= i < |rest| && !WellFormed(rest[i]) {
        assert !InRange(rest[i], |lines'|) && !InRange(ops[i + 1], |lines|);
      } else {
        forall i | 0 <= i < |ops| ensures WellFormed(ops[i]) {
          assert i > 0 ==> ops[i] == rest[i - 1];
        }
        NeighboursGiveChain(ops);
        forall i | 0 <= i < |rest| ensures InRange(ops[i + 1], |lines|) && InRange(rest[i], |lines'|) {
          LaterOpsStayInRange(lines, a, ops[i + 1]);
        }
        assert ApplyAll(lines, ops).Ok?;
        forall i | 0 <= i < |ops| ensures InRange(ops[i], |lines|) {
          assert i > 0 ==> InRange(ops[(i - 1) + 1], |lines|);
        }
      }
    }
  }

  lemma NothingAt(ops: set<PatchOp>, k: nat, line: nat)
    requires forall op | op in ops :: WellFormed(op) && OpEndLine(op) <= k
    requires k < line
    ensures Replacement(ops, line) == [] && !Covered(ops, line) && Gap(ops, line) == []
  {}

  /** Ops that all end at or before line k leave the rest of the source as it is. */
  lemma {:induction false} NothingBelow(lines: seq<string>, ops: set<PatchOp>, k: nat)
    requires k <= |lines|
    requires forall op | op in ops :: WellFormed(op) && OpEndLine(op) <= k
    ensures FromLineAfter(lines, ops, k) == lines[k..]
    decreases |lines| - k
  {
    if k < |lines| {
      NothingAt(ops, k, k + 1);
      NothingBelow(lines, ops, k + 1);
      assert lines[k..] == [lines[k]] + lines[k + 1..];
    }
  }

  /** Inside the range of a replace or delete nothing of the source is left. */
  lemma {:induction false} ErasedRun(lines: seq<string>, a: PatchOp, rest: set<PatchOp>, k: nat)
    requires (a.Replace? || a.Delete?) && InRange(a, |lines|) && a.fromLine <= k <= a.toLine
    requires forall op | op in rest :: WellFormed(op) && OpEndLine(op) < a.fromLine
    ensures FromGap(lines, rest + {a}, k) == lines[a.toLine..]
    decreases a.toLine - k
  {
    var ops := rest + {a};
    assert Gap(ops, k) == [];
    if k == a.toLine {
      NothingBelow(lines, ops, k);
    } else {
      assert Replacement(ops, k + 1) == [] && Covered(ops, k + 1);
      ErasedRun(lines, a, rest, k + 1);
    }
  }

  /** Where an op starts cutting: the number of lines above it. */
  function Above(a: PatchOp): int { if a.Insert? then a.afterLine else PrimaryKey(a) - 1 }

  /** A line above a that the ops below leave alone. */
  lemma {:induction false} AbsorbLine(lines: seq<string>, lines': seq<string>, a: PatchOp, rest: set<PatchOp>, k: nat)
    requires InRange(a, |lines|) && k < Above(a) && AllApart(rest) && lines' == ApplyLineOp(lines, a).value
    requires forall op | op in rest :: WellFormed(op) && OpEndLine(op) < OpStartLine(a)
    requires k < |lines'| ==> FromGap(lines', rest, k + 1) == FromGap(lines, rest + {a}, k + 1)
    ensures FromGap(lines', rest, k) == FromGap(lines, rest + {a}, k)
  {
    SameGap(rest, a, k);
    SameLine(rest, a, k + 1);
    LineAbove(lines, a, k);
    SameStep(lines, lines', rest + {a}, rest, k);
  }

  lemma {:induction false} LineAbove(lines: seq<string>, a: PatchOp, k: nat)
    requires InRange(a, |lines|) && k < Above(a)
    ensures var lines' := ApplyLineOp(lines, a).value; k < |lines| && k < |lines'| && lines'[k] == lines[k]
  {}

  lemma {:induction false} SameStep(lines: seq<string>, lines': seq<string>, ops: set<PatchOp>, ops': set<PatchOp>,
                                    k: nat)
    requires k < |lines| && k < |lines'| && lines'[k] == lines[k] && Gap(ops', k) == Gap(ops, k)
    requires Replacement(ops', k + 1) == Replacement(ops, k + 1) && Covered(ops', k + 1) == Covered(ops, k + 1)
    requires FromGap(lines', ops', k + 1) == FromGap(lines, ops, k + 1)
    ensures FromGap(lines', ops', k) == FromGap(lines, ops, k)
  {}

  /** Applying a in place first and the ops above it at once is applying all of them at once. */
  lemma {:induction false} AbsorbFrom(lines: seq<string>, a: PatchOp, rest: set<PatchOp>, k: nat)
    requires InRange(a, |lines|) && k <= Above(a) && AllApart(rest)
    requires forall op | op in rest :: WellFormed(op) && OpEndLine(op) < OpStartLine(a)
    ensures FromGap(ApplyLineOp(lines, a).value, rest, k) == FromGap(lines, rest + {a}, k)
    decreases Above(a) - k
  {
    if k < Above(a) {
      AbsorbFrom(lines, a, rest, k + 1);
      AbsorbLine(lines, ApplyLineOp(lines, a).value, a, rest, k);
    } else if a.Insert? {
      AbsorbInsert(lines, a, rest);
    } else {
      AbsorbRange(lines, a, rest);
    }
  }

  lemma AbsorbInsert(lines: seq<string>, a: PatchOp, rest: set<PatchOp>)
    requires a.Insert? && InRange(a, |lines|)
    requires forall op | op in rest :: WellFormed(op) && OpEndLine(op) < a.afterLine
    ensures var p := a.afterLine;
            FromGap(ApplyLineOp(lines, a).value, rest, p) == FromGap(lines, rest + {a}, p)
  {
    var ops, p, lines' := rest + {a}, a.afterLine, ApplyLineOp(lines, a).value;
    assert Gap(rest, p) == [];
    assert InsertsAt(a, p) && Gap(ops, p) == [a.content];
    NothingBelow(lines', rest, p);
    NothingBelow(lines, ops, p);
    assert lines'[p..] == [a.content] + lines[p..];
  }

  lemma RangeErased(lines: seq<string>, a: PatchOp, rest: set<PatchOp>, p: nat)
    requires (a.Replace? || a.Delete?) && InRange(a, |lines|) && p == a.fromLine - 1
    requires forall op | op in rest :: WellFormed(op) && OpEndLine(op) < a.fromLine
    ensures FromLineAfter(lines, rest + {a}, p) == Replacement(rest + {a}, p + 1) + lines[a.toLine..]
  {
    ErasedRun(lines, a, rest, p + 1);
    assert Covered(rest + {a}, p + 1);
  }

  lemma RangeReplaced(a: PatchOp, rest: set<PatchOp>, p: nat)
    requires (a.Replace? || a.Delete?) && WellFormed(a) && p == a.fromLine - 1
    requires forall op | op in rest :: WellFormed(op) && OpEndLine(op) < a.fromLine
    ensures Replacement(rest + {a}, p + 1) == if a.Replace? then [a.content] else []
  {
    if a.Replace? {
      assert ReplacesFrom(a, p + 1);
    }
  }

  lemma AbsorbRange(lines: seq<string>, a: PatchOp, rest: set<PatchOp>)
    requires (a.Replace? || a.Delete?) && InRange(a, |lines|) && AllApart(rest)
    requires forall op | op in rest :: WellFormed(op) && OpEndLine(op) < a.fromLine
    ensures var p := a.fromLine - 1;
            FromGap(ApplyLineOp(lines, a).value, rest, p) == FromGap(lines, rest + {a}, p)
  {
    var p, lines' := a.fromLine - 1, ApplyLineOp(lines, a).value;
    SameGap(rest, a, p);
    NothingBelow(lines', rest, p);
    RangeErased(lines, a, rest, p);
    RangeReplaced(a, rest, p);
    assert lines'[p..] == (if a.Replace? then [a.content] else []) + lines[a.toLine..];
  }

  ghost predicate AllApart(ops: set<PatchOp>) {
    forall x, y | x in ops && y in ops && x != y :: Apart(x, y)
  }

  lemma SameGap(rest: set<PatchOp>, a: PatchOp, k: int)
    requires !InsertsAt(a, k) && AllApart(rest)
    ensures Gap(rest + {a}, k) == Gap(rest, k)
  {
    var ops := rest + {a};
    assert forall op | op in ops && InsertsAt(op, k) :: op in rest;
    if op :| op in rest && InsertsAt(op, k) {
      assert op in ops;
      assert forall x | x in rest && InsertsAt(x, k) :: x == op;
    }
  }

  lemma SameLine(rest: set<PatchOp>, a: PatchOp, k: int)
    requires (a.Replace? || a.Delete?) ==> !(a.fromLine <= k <= a.toLine)
    requires !ReplacesFrom(a, k) && AllApart(rest) && forall op | op in rest :: WellFormed(op)
    ensures Replacement(rest + {a}, k) == Replacement(rest, k)
    ensures Covered(rest + {a}, k) == Covered(rest, k)
  {
    var ops := rest + {a};
    assert forall op | op in ops && ReplacesFrom(op, k) :: op in rest;
    if op :| op in rest && ReplacesFrom(op, k) {
      assert op in ops;
      assert forall x | x in rest && ReplacesFrom(x, k) :: x == op;
    }
  }

  function OpSet(ops: seq<PatchOp>): set<PatchOp> { set op | op in ops }

  lemma LaterOps(lines: seq<string>, ops: seq<PatchOp>)
    requires ops != [] && Chain(ops) && InRange(ops[0], |lines|)
    requires forall i | 0 <= i < |ops| :: InRange(ops[i], |lines|)
    ensures var lines', rest := ApplyLineOp(lines, ops[0]).value, ops[1..];
            && Chain(rest) && AllApart(OpSet(rest))
            && (forall i | 0 <= i < |rest| :: OpEndLine(rest[i]) < OpStartLine(ops[0]) && InRange(rest[i], |lines'|))
  {
    var rest := ops[1..];
    forall i | 0 <= i < |rest|
      ensures OpEndLine(rest[i]) < OpStartLine(ops[0])
      ensures InRange(rest[i], |ApplyLineOp(lines, ops[0]).value|)
    {
      assert rest[i] == ops[i + 1] && InRange(ops[i + 1], |lines|);
      LaterOpsStayInRange(lines, ops[0], ops[i + 1]);
    }
    forall x, y | x in rest && y in rest && x != y ensures Apart(x, y) {
      var i :| 0 <= i < |rest| && rest[i] == x;
      var j :| 0 <= j < |rest| && rest[j] == y;
      assert x == ops[i + 1] && y == ops[j + 1];
    }
  }

  /** The main result: bottom-up in place equals all at once. */
  lemma {:induction false} BottomUpIsSimultaneous(lines: seq<string>, ops: seq<PatchOp>)
    requires Chain(ops) && forall i | 0 <= i < |ops| :: InRange(ops[i], |lines|)
    ensures ApplyAll(lines, ops) == Ok(Simultaneous(lines, OpSet(ops)))
    decreases |ops|
  {
    if ops == [] {
      assert OpSet(ops) == {} && Gap({}, 0) == [] && lines[0..] == lines;
      NothingBelow(lines, {}, 0);
      assert FromGap(lines, {}, 0) == [] + lines == lines;
    } else {
      var a, rest := ops[0], ops[1..];
      assert InRange(a, |lines|);
      var lines' := ApplyLineOp(lines, a).value;
      LaterOps(lines, ops);
      BottomUpIsSimultaneous(lines', rest);
      AbsorbFrom(lines, a, OpSet(rest), 0);
      assert OpSet(ops) == OpSet(rest) + {a};
    }
  }

  // ---------------------------------------------------------------------------
  // search_replace
  // ---------------------------------------------------------------------------

  predicate Contains(s: string, t: string) { t <= s || (s != "" && Contains(s[1..], t)) }

  /** strings.Replace(s, t, r, 1) for a non-empty t. */
  function ReplaceFirst(s: string, t: string, r: string): string
    requires t != ""
  {
    if t <= s then r + s[|t|..] else if s == "" then "" else [s[0]] + ReplaceFirst(s[1..], t, r)
  }

  /** strings.ReplaceAll(s, t, r) for a non-empty t. */
  function ReplaceAll(s: string, t: string, r: string): (x: string)
    requires t != ""
    ensures s != "" && r != "" ==> x != ""
    decreases |s|
  {
    if t <= s then r + ReplaceAll(s[|t|..], t, r)
    else if s == "" then "" else [s[0]] + ReplaceAll(s[1..], t, r)
  }

  function ToCRLF(s: string): string { ReplaceAll(ReplaceAll(s, "\r\n", "\n"), "\n", "\r\n") }

  /** The text occurs at position k. */
  predicate OccursAt(s: string, t: string, k: int) { 0 <= k <= |s| && t <= s[k..] }

  predicate Occurs(s: string, t: string) { exists k :: 0 <= k <= |s| && OccursAt(s, t, k) }

  lemma {:induction false} ContainsMeans(s: string, t: string)
    ensures Contains(s, t) <==> Occurs(s, t)
  {
    assert s[0..] == s;
    if s == "" {
      assert OccursAt(s, t, 0) <==> t <= s;
    } else {
      ContainsMeans(s[1..], t);
      if Occurs(s[1..], t) {
        var k :| 0 <= k <= |s[1..]| && OccursAt(s[1..], t, k);
        assert s[1..][k..] == s[k + 1..] && OccursAt(s, t, k + 1);
      }
      if k :| 0 < k <= |s| && OccursAt(s, t, k) {
        assert s[1..][k - 1..] == s[k..] && OccursAt(s[1..], t, k - 1);
      }
      assert t <= s <==> OccursAt(s, t, 0);
    }
  }

  /** x is s with the leftmost t replaced. */
  ghost predicate IsReplacedOnce(s: string, t: string, r: string, x: string) {
    exists pre, post :: IsCutAtFirst(s, t, pre, post) && x == pre + r + post
  }

  ghost predicate IsCutAtFirst(s: string, t: string, pre: string, post: string) {
    s == pre + t + post && forall k | 0 <= k < |pre| :: !OccursAt(s, t, k)
  }

  /** x is s with every t replaced: s is cut at the leftmost t, the rest behind it likewise, and the
      parts are joined again with r. */
  ghost predicate IsReplacedAll(s: string, t: string, r: string, x: string) {
    exists parts :: IsCutAtEach(s, t, parts) && x == Join(parts, r)
  }

  ghost predicate IsCutAtEach(s: string, t: string, parts: seq<string>) {
    && parts != [] && s == Join(parts, t) && !Occurs(parts[|parts| - 1], t)
    && forall i | 0 <= i < |parts| - 1 :: IsCutAt(t, parts, i)
  }

  /** search_replace on one source: the search text as written if it occurs, else with CRLF line ends,
      and then the replacement with CRLF line ends as well. */
  ghost predicate IsSearchReplaced(src: string, search: string, replace: string, all: bool, x: string) {
    if Occurs(src, search) then IsReplaced(src, search, replace, all, x)
    else IsReplaced(src, ToCRLF(search), ToCRLF(replace), all, x)
  }

  ghost predicate IsReplaced(s: string, t: string, r: string, all: bool, x: string) {
    Occurs(s, t) && if all then IsReplacedAll(s, t, r, x) else IsReplacedOnce(s, t, r, x)
  }

  predicate NotFound(src: string, search: string) {
    search == "" || (!Occurs(src, search) && !Occurs(src, ToCRLF(search)))
  }

  /** search_replace never leaves the source alone silently: it fails exactly when the search text
      is empty or occurs neither as written nor with CRLF line endings. */
  function ApplySearchReplace(src: string, search: string, replace: string, all: bool): (r: Result<string>)
    ensures r.Err? <==> NotFound(src, search)
    ensures r.Ok? ==> IsSearchReplaced(src, search, replace, all, r.value)
  {
    ContainsMeans(src, search);
    ContainsMeans(src, ToCRLF(search));
    if search == "" then Err
    else if Contains(src, search) then
      Replacing(src, search, replace);
      Ok(if all then ReplaceAll(src, search, replace) else ReplaceFirst(src, search, replace))
    else
      var crlf := ToCRLF(search);
      if crlf == search || !Contains(src, crlf) then Err
      else
        Replacing(src, crlf, ToCRLF(replace));
        Ok(if all then ReplaceAll(src, crlf, ToCRLF(replace)) else ReplaceFirst(src, crlf, ToCRLF(replace)))
  }

  lemma {:induction false} Replacing(s: string, t: string, r: string)
    requires t != "" && Contains(s, t)
    ensures IsReplacedAll(s, t, r, ReplaceAll(s, t, r)) && IsReplacedOnce(s, t, r, ReplaceFirst(s, t, r))
  {
    var parts := ReplaceAllJoins(s, t, r);
    var pre, post := ReplaceFirstSplits(s, t, r);
  }

  /** The text from the i-th part on has no t before the end of that part. */
  ghost predicate IsCutAt(t: string, parts: seq<string>, i: nat)
    requires i < |parts|
  {
    forall k | 0 <= k < |parts[i]| :: !OccursAt(Join(parts[i..], t), t, k)
  }

  lemma {:induction false} CutConsFirst(s: string, t: string, parts: seq<string>, c: string)
    requires parts != [] && s == Join(parts, t) && IsCutAt(t, parts, 0) && |c| == 1 && !OccursAt(c + s, t, 0)
    ensures IsCutAt(t, [c + parts[0]] + parts[1..], 0)
  {
    var more := [c + parts[0]] + parts[1..];
    JoinWider(c, parts, t);
    assert more[0..] == more && parts[0..] == parts;
    forall k | 0 <= k < |more[0]| ensures !OccursAt(c + s, t, k) {
      if k > 0 {
        assert (c + s)[k..] == s[k - 1..];
        assert !OccursAt(Join(parts[0..], t), t, k - 1);
      }
    }
  }

  lemma {:induction false} CutCons(s: string, t: string, parts: seq<string>, c: string)
    requires IsCutAtEach(s, t, parts) && |c| == 1 && !OccursAt(c + s, t, 0)
    ensures IsCutAtEach(c + s, t, [c + parts[0]] + parts[1..])
  {
    var more := [c + parts[0]] + parts[1..];
    JoinWider(c, parts, t);
    if |parts| == 1 {
      OccursWider(c, parts[0], t);
    }
    forall i | 0 <= i < |more| - 1 ensures IsCutAt(t, more, i) {
      assert IsCutAt(t, parts, i);
      if i == 0 {
        CutConsFirst(s, t, parts, c);
      } else {
        assert more[i..] == parts[i..];
      }
    }
  }

  lemma {:induction false} JoinWider(c: string, parts: seq<string>, sep: string)
    requires parts != []
    ensures Join([c + parts[0]] + parts[1..], sep) == c + Join(parts, sep)
  {
    var more := [c + parts[0]] + parts[1..];
    if |parts| > 1 {
      assert more[1..] == parts[1..];
      assert (c + parts[0]) + sep + Join(parts[1..], sep) == c + (parts[0] + sep + Join(parts[1..], sep));
    }
  }

  lemma {:induction false} OccursWider(c: string, s: string, t: string)
    requires |c| == 1 && !OccursAt(c + s, t, 0) && !Occurs(s, t)
    ensures !Occurs(c + s, t)
  {
    forall k | 0 <= k <= |c + s| ensures !OccursAt(c + s, t, k) {
      if k > 0 {
        assert (c + s)[k..] == s[k - 1..] && !OccursAt(s, t, k - 1);
      }
    }
  }

  lemma {:induction false} JoinNext(parts: seq<string>, sep: string)
    requires parts != []
    ensures Join([""] + parts, sep) == sep + Join(parts, sep)
  {
    assert ([""] + parts)[1..] == parts && "" + sep + Join(parts, sep) == sep + Join(parts, sep);
  }

  lemma {:induction false} CutNext(s: string, t: string, parts: seq<string>)
    requires IsCutAtEach(s, t, parts)
    ensures IsCutAtEach(t + s, t, [""] + parts)
  {
    var more := [""] + parts;
    JoinNext(parts, t);
    forall i | 0 <= i < |more| - 1 ensures IsCutAt(t, more, i) {
      if i > 0 {
        assert IsCutAt(t, parts, i - 1) && more[i..] == parts[i - 1..];
      }
    }
  }

  lemma {:induction false} ReplaceNext(s: string, t: string, r: string)
    requires t != ""
    ensures ReplaceAll(t + s, t, r) == r + ReplaceAll(s, t, r)
  {
    assert (t + s)[|t|..] == s;
  }

  ghost predicate Joins(s: string, t: string, r: string, parts: seq<string>)
    requires t != ""
  {
    IsCutAtEach(s, t, parts) && ReplaceAll(s, t, r) == Join(parts, r)
  }

  lemma {:induction false} JoinsNext(s: string, t: string, r: string, parts: seq<string>)
    requires t != "" && Joins(s, t, r, parts)
    ensures Joins(t + s, t, r, [""] + parts)
  {
    CutNext(s, t, parts);
    ReplaceNext(s, t, r);
    JoinNext(parts, r);
  }

  lemma {:induction false} JoinsCons(c: string, s: string, t: string, r: string, parts: seq<string>)
    requires t != "" && Joins(s, t, r, parts) && |c| == 1 && !(t <= c + s)
    ensures Joins(c + s, t, r, [c + parts[0]] + parts[1..])
  {
    assert (c + s)[1..] == s && [(c + s)[0]] == c && !OccursAt(c + s, t, 0);
    CutCons(s, t, parts, c);
    JoinWider(c, parts, r);
  }

  /** ReplaceAll cuts at each occurrence and joins the parts again. */
  lemma {:induction false} ReplaceAllJoins(s: string, t: string, r: string) returns (parts: seq<string>)
    requires t != ""
    ensures Joins(s, t, r, parts)
    decreases |s|
  {
    if t <= s {
      var rest := ReplaceAllJoins(s[|t|..], t, r);
      JoinsNext(s[|t|..], t, r, rest);
      assert t + s[|t|..] == s;
      parts := [""] + rest;
    } else if s == "" {
      parts := [""];
      assert !Occurs("", t);
    } else {
      var rest := ReplaceAllJoins(s[1..], t, r);
      assert [s[0]] + s[1..] == s;
      JoinsCons([s[0]], s[1..], t, r, rest);
      parts := [[s[0]] + rest[0]] + rest[1..];
    }
  }

  // Line ends ------------------------------------------------------------------

  /** The text with LF for every CRLF. */
  function Unix(s: string): string {
    if s == "" then ""
    else if |s| > 1 && s[0] == '\r' && s[1] == '\n' then "\n" + Unix(s[2..])
    else [s[0]] + Unix(s[1..])
  }

  /** Every line feed follows a carriage return. */
  predicate AllCRLF(s: string) { forall i | 0 <= i < |s| && s[i] == '\n' :: i > 0 && s[i - 1] == '\r' }

  lemma {:induction false} UnixIsReplaced(s: string)
    ensures ReplaceAll(s, "\r\n", "\n") == Unix(s)
    decreases |s|
  {
    if s != "" {
      if |s| > 1 && s[0] == '\r' && s[1] == '\n' {
        assert "\r\n" <= s;
        UnixIsReplaced(s[2..]);
      } else {
        assert !("\r\n" <= s);
        UnixIsReplaced(s[1..]);
      }
    }
  }

  lemma {:induction false} ExpandedIsCRLF(s: string)
    ensures AllCRLF(ReplaceAll(s, "\n", "\r\n"))
    decreases |s|
  {
    if s != "" {
      var e, tail := ReplaceAll(s, "\n", "\r\n"), ReplaceAll(s[1..], "\n", "\r\n");
      ExpandedIsCRLF(s[1..]);
      HeadOfExpand(s[1..]);
      if s[0] == '\n' {
        assert "\n" <= s && e == "\r\n" + tail;
      } else {
        assert !("\n" <= s) && e == [s[0]] + tail;
      }
    }
  }

  lemma {:induction false} CRLFIsExpanded(s: string)
    requires AllCRLF(s)
    ensures ReplaceAll(Unix(s), "\n", "\r\n") == s
    decreases |s|
  {
    if s != "" {
      if |s| > 1 && s[0] == '\r' && s[1] == '\n' {
        var tail := s[2..];
        assert AllCRLF(tail) by {
          assert forall i | 0 <= i < |tail| :: tail[i] == s[i + 2];
          assert tail != "" ==> s[2] != '\n';
        }
        CRLFIsExpanded(tail);
        assert "\n" <= "\n" + Unix(tail) && ("\n" + Unix(tail))[1..] == Unix(tail);
        assert "\r\n" + tail == s;
      } else {
        var tail := s[1..];
        assert AllCRLF(tail) by {
          assert forall i | 0 <= i < |tail| :: tail[i] == s[i + 1];
        }
        CRLFIsExpanded(tail);
        var u := [s[0]] + Unix(tail);
        assert u[0] == s[0] && s[0] != '\n' && "\n"[0] == '\n';
        assert !("\n" <= u) && u[1..] == Unix(tail);
        assert [s[0]] + tail == s;
      }
    }
  }

  /** ToCRLF gives the one text that is the same apart from line ends and has only CRLF ones. */
  lemma {:induction false} ToCRLFExactly(s: string, x: string)
    ensures x == ToCRLF(s) <==> AllCRLF(x) && Unix(x) == Unix(s)
  {
    UnixIsReplaced(s);
    ExpandedIsCRLF(Unix(s));
    CollapseExpand(Unix(s));
    UnixIsReplaced(ToCRLF(s));
    if AllCRLF(x) && Unix(x) == Unix(s) {
      CRLFIsExpanded(x);
    }
  }

  /** Normalising what was expanded gives back what was normalised. */
  lemma {:induction false} CollapseExpand(t: string)
    ensures ReplaceAll(ReplaceAll(t, "\n", "\r\n"), "\r\n", "\n") == t
    decreases |t|
  {
    if t != "" {
      var tail := ReplaceAll(t[1..], "\n", "\r\n");
      CollapseExpand(t[1..]);
      if t[0] == '\n' {
        assert "\n" <= t;
        assert ("\r\n" + tail)[2..] == tail;
        assert "\n" + t[1..] == t;
      } else {
        assert !("\n" <= t);
        var e := [t[0]] + tail;
        assert e[1..] == tail;
        HeadOfExpand(t[1..]);
        assert tail == "" || e[1] != '\n';
        assert [t[0]] + t[1..] == t;
      }
    }
  }

  /** An expanded text never starts with a bare line feed. */
  lemma HeadOfExpand(t: string)
    ensures var e := ReplaceAll(t, "\n", "\r\n"); e == "" || e[0] != '\n'
  {
    if t != "" && t[0] == '\n' {
      assert "\n" <= t;
    }
  }

  /** Realigning line endings twice is realigning them once. */
  lemma ToCRLFIsIdempotent(s: string)
    ensures ToCRLF(ToCRLF(s)) == ToCRLF(s)
  {
    CollapseExpand(ReplaceAll(s, "\r\n", "\n"));
  }

  lemma OneFurther(c: string, p: string, x: string, q: string)
    ensures c + (p + x + q) == (c + p) + x + q
  {}

  /** ReplaceFirst rewrites exactly the leftmost occurrence. */
  lemma {:induction false} ReplaceFirstSplits(s: string, t: string, r: string) returns (pre: string, post: string)
    requires t != "" && Contains(s, t)
    ensures IsCutAtFirst(s, t, pre, post) && ReplaceFirst(s, t, r) == pre + r + post
  {
    if t <= s {
      pre, post := "", s[|t|..];
    } else {
      var p, q := ReplaceFirstSplits(s[1..], t, r);
      pre, post := [s[0]] + p, q;
      assert s == [s[0]] + s[1..];
      OneFurther([s[0]], p, t, q);
      OneFurther([s[0]], p, r, q);
      forall k | 0 <= k < |pre| ensures !OccursAt(s, t, k) {
        if k > 0 {
          assert s[k..] == s[1..][k - 1..] && !OccursAt(s[1..], t, k - 1);
        }
      }
    }
  }

  function ApplySearches(src: string, ops: seq<PatchOp>): Result<string>
    requires forall op | op in ops :: op.SearchReplace?
    decreases |ops|
  {
    if ops == [] then Ok(src) else
    match ApplySearchReplace(src, ops[0].search, ops[0].replace, ops[0].all)
    case Err => Err
    case Ok(src') => ApplySearches(src', ops[1..])
  }

  /** The texts between the search ops: each op makes the next one of it, up to one that is not found. */
  ghost predicate AreSearched(texts: seq<string>, ops: seq<PatchOp>)
    requires forall op | op in ops :: op.SearchReplace?
  {
    0 < |texts| <= |ops| + 1 && forall i | 0 <= i < |texts| - 1 :: IsSearched(texts, ops, i)
  }

  ghost predicate IsSearched(texts: seq<string>, ops: seq<PatchOp>, i: nat)
    requires 0 <= i < |texts| - 1 && i < |ops| && ops[i].SearchReplace?
  {
    IsSearchReplaced(texts[i], ops[i].search, ops[i].replace, ops[i].all, texts[i + 1])
  }

  lemma {:induction false} AreSearchedCons(src: string, texts: seq<string>, op: PatchOp, ops: seq<PatchOp>)
    requires op.SearchReplace? && forall op | op in ops :: op.SearchReplace?
    requires AreSearched(texts, ops) && IsSearchReplaced(src, op.search, op.replace, op.all, texts[0])
    ensures AreSearched([src] + texts, [op] + ops)
  {
    var more, all := [src] + texts, [op] + ops;
    forall i | 0 <= i < |more| - 1 ensures IsSearched(more, all, i) {
      if i > 0 {
        assert IsSearched(texts, ops, i - 1) && more[i] == texts[i - 1] && all[i] == ops[i - 1];
      }
      assert more[i + 1] == texts[i];
    }
  }

  /** The ops are applied one after the other, and fail exactly at the first that is not found. */
  ghost predicate SearchesAreRight(src: string, ops: seq<PatchOp>, r: Result<string>)
    requires forall op | op in ops :: op.SearchReplace?
  {
    exists texts :: AreSearched(texts, ops) && texts[0] == src && EndsAs(texts, ops, r)
  }

  predicate EndsAs(texts: seq<string>, ops: seq<PatchOp>, r: Result<string>)
    requires 0 < |texts| <= |ops| + 1 && forall op | op in ops :: op.SearchReplace?
  {
    var n := |texts| - 1;
    if n == |ops| then r == Ok(texts[n]) else r == Err && NotFound(texts[n], ops[n].search)
  }

  lemma {:induction false} ApplySearchesIsRight(src: string, ops: seq<PatchOp>) returns (texts: seq<string>)
    requires forall op | op in ops :: op.SearchReplace?
    ensures AreSearched(texts, ops) && texts[0] == src && EndsAs(texts, ops, ApplySearches(src, ops))
    decreases |ops|
  {
    texts := [src];
    if ops != [] {
      var r := ApplySearchReplace(src, ops[0].search, ops[0].replace, ops[0].all);
      if r.Ok? {
        var rest := ApplySearchesIsRight(r.value, ops[1..]);
        AreSearchedCons(src, rest, ops[0], ops[1..]);
        texts := [src] + rest;
        assert ops == [ops[0]] + ops[1..] && texts[|texts| - 1] == rest[|rest| - 1];
      }
    }
  }

  // ---------------------------------------------------------------------------
  // ApplyPatchOps
  // ---------------------------------------------------------------------------

  function LineOps(ops: seq<PatchOp>): seq<PatchOp> {
    if ops == [] then [] else (if ops[0].SearchReplace? then [] else [ops[0]]) + LineOps(ops[1..])
  }

  function SearchOps(ops: seq<PatchOp>): (r: seq<PatchOp>)
    ensures forall op | op in r :: op.SearchReplace?
  {
    if ops == [] then [] else (if ops[0].SearchReplace? then [ops[0]] else []) + SearchOps(ops[1..])
  }

  /** The line ops and the search ops are the ops of the patch. */
  lemma {:induction false} OpsAreSeparated(ops: seq<PatchOp>)
    ensures multiset(LineOps(ops)) + multiset(SearchOps(ops)) == multiset(ops)
    ensures forall op | op in LineOps(ops) :: !op.SearchReplace?
  {
    if ops != [] {
      OpsAreSeparated(ops[1..]);
      assert ops == [ops[0]] + ops[1..];
    }
  }

  /** The search ops keep their order. */
  lemma {:induction false} SearchOpsInOrder(ops: seq<PatchOp>) returns (idx: seq<nat>)
    ensures IsPicked(SearchOps(ops), ops, idx)
  {
    idx := [];
    if ops != [] {
      var rest := SearchOpsInOrder(ops[1..]);
      idx := PickedLater(SearchOps(ops[1..]), ops, rest);
      if ops[0].SearchReplace? {
        idx := [0] + idx;
        assert SearchOps(ops) == [ops[0]] + SearchOps(ops[1..]);
      } else {
        assert SearchOps(ops) == SearchOps(ops[1..]);
      }
    }
  }

  ghost predicate IsPicked(some: seq<PatchOp>, ops: seq<PatchOp>, idx: seq<nat>) {
    && |idx| == |some| && (forall k, l | 0 <= k < l < |idx| :: idx[k] < idx[l])
    && forall k {:trigger idx[k]} | 0 <= k < |idx| :: idx[k] < |ops| && some[k] == ops[idx[k]]
  }

  lemma {:induction false} PickedLater(some: seq<PatchOp>, ops: seq<PatchOp>, idx: seq<nat>) returns (later: seq<nat>)
    requires ops != [] && IsPicked(some, ops[1..], idx)
    ensures IsPicked(some, ops, later) && forall k | 0 <= k < |later| :: later[k] > 0
  {
    later := seq(|idx|, k requires 0 <= k < |idx| => idx[k] + 1);
    forall k {:trigger later[k]} | 0 <= k < |later| ensures later[k] < |ops| && some[k] == ops[later[k]] {
      assert idx[k] < |ops[1..]| && some[k] == ops[1..][idx[k]];
    }
  }

  /** Sorts by descending primary key. Callers learn nothing about the order of equal keys. */
  method SortDescending(ops: seq<PatchOp>) returns (sorted: seq<PatchOp>)
    ensures multiset(sorted) == multiset(ops) && Descending(sorted)
  {
    sorted := [];
    for i := 0 to |ops|
      invariant multiset(sorted) == multiset(ops[..i]) && Descending(sorted)
    {
      sorted := InsertSorted(sorted, ops[i]);
      assert ops[..i + 1] == ops[..i] + [ops[i]];
    }
    assert ops[..|ops|] == ops;
  }

  method InsertSorted(sorted: seq<PatchOp>, op: PatchOp) returns (longer: seq<PatchOp>)
    requires Descending(sorted)
    ensures multiset(longer) == multiset(sorted) + multiset{op} && Descending(longer)
  {
    var j := 0;
    while j < |sorted| && PrimaryKey(sorted[j]) > PrimaryKey(op)
      invariant 0 <= j <= |sorted|
      invariant forall k | 0 <= k < j :: PrimaryKey(sorted[k]) > PrimaryKey(op)
    {
      j := j + 1;
    }
    InsertedAt(sorted, j, op);
    longer := sorted[..j] + [op] + sorted[j..];
  }

  lemma InsertedAt(sorted: seq<PatchOp>, j: nat, op: PatchOp)
    requires Descending(sorted) && j <= |sorted|
    requires forall k | 0 <= k < j :: PrimaryKey(sorted[k]) > PrimaryKey(op)
    requires j < |sorted| ==> PrimaryKey(sorted[j]) <= PrimaryKey(op)
    ensures Descending(sorted[..j] + [op] + sorted[j..])
    ensures multiset(sorted[..j] + [op] + sorted[j..]) == multiset(sorted) + multiset{op}
  {
    assert multiset(sorted[..j] + sorted[j..]) == multiset(sorted) by {
      assert sorted[..j] + sorted[j..] == sorted;
    }
  }

  /** ApplyPatchOps. The line ops succeed exactly when all of them are in range of the original
      source and their ranges are pairwise disjoint, and then act all at once on the original
      line numbers; the search ops follow in their order. */
  method ApplyPatchOps(source: string, ops: seq<PatchOp>) returns (r: Result<string>)
    ensures var lines, lineOps := SplitLines(source), LineOps(ops);
            if Applicable(lineOps, |lines|)
            then r == ApplySearches(JoinLines(Simultaneous(lines, OpSet(lineOps))), SearchOps(ops))
            else r == Err
    ensures var lines, lineOps := SplitLines(source), LineOps(ops);
            Applicable(lineOps, |lines|) ==>
              SearchesAreRight(JoinLines(Simultaneous(lines, OpSet(lineOps))), SearchOps(ops), r)
  {
    ghost var texts := ApplySearchesIsRight(JoinLines(Simultaneous(SplitLines(source), OpSet(LineOps(ops)))),
                                            SearchOps(ops));
    var lineOps, srOps := SeparateOps(ops);
    var sorted := SortDescending(lineOps);
    var lines := SplitLines(source);
    SortedIsSame(lineOps, sorted, lines);
    var apart := CheckNeighbours(sorted);
    if !apart {
      return Err;
    }
    var patched := ApplyLineOps(lines, sorted);
    if patched.Err? {
      return Err;
    }
    r := ApplySearchOps(JoinLines(patched.value), srOps);
  }

  /** ApplyPatchOps, first loop. */
  method SeparateOps(ops: seq<PatchOp>) returns (lineOps: seq<PatchOp>, srOps: seq<PatchOp>)
    ensures lineOps == LineOps(ops) && srOps == SearchOps(ops)
  {
    lineOps, srOps := [], [];
    ghost var allLine, allSearch := LineOps(ops), SearchOps(ops);
    assert ops[0..] == ops;
    for i := 0 to |ops|
      invariant Separating(allLine, allSearch, lineOps, srOps, ops[i..])
    {
      SeparatingOn(allLine, allSearch, lineOps, srOps, ops[i], ops[i + 1..]);
      assert ops[i..] == [ops[i]] + ops[i + 1..];
      if ops[i].SearchReplace? {
        srOps := srOps + [ops[i]];
      } else {
        lineOps := lineOps + [ops[i]];
      }
    }
  }

  /** The ops so far, and those among the ones left, are all. */
  ghost predicate Separating(allLine: seq<PatchOp>, allSearch: seq<PatchOp>, lineOps: seq<PatchOp>, srOps: seq<PatchOp>,
                             left: seq<PatchOp>)
  {
    allLine == lineOps + LineOps(left) && allSearch == srOps + SearchOps(left)
  }

  lemma SeparatingOn(allLine: seq<PatchOp>, allSearch: seq<PatchOp>, lineOps: seq<PatchOp>, srOps: seq<PatchOp>,
                     op: PatchOp, rest: seq<PatchOp>)
    ensures Separating(allLine, allSearch, lineOps, srOps, [op] + rest) ==>
              if op.SearchReplace? then Separating(allLine, allSearch, lineOps, srOps + [op], rest)
              else Separating(allLine, allSearch, lineOps + [op], srOps, rest)
  {
    assert ([op] + rest)[1..] == rest;
  }

  /** ApplyPatchOps, second loop: only neighbours are compared. */
  method CheckNeighbours(sorted: seq<PatchOp>) returns (apart: bool)
    ensures apart <==> NeighboursApart(sorted)
  {
    for i := 0 to |sorted|
      invariant forall k | 0 <= k < i && k < |sorted| - 1 :: !Overlap(sorted[k], sorted[k + 1])
    {
      if i + 1 < |sorted| {
        var a, b := sorted[i], sorted[i + 1];
        if PrimaryKey(a) <= OpEndLine(b) && OpStartLine(b) <= OpEndLine(a) {
          assert Overlap(sorted[i], sorted[i + 1]);
          return false;
        }
      }
    }
    return true;
  }

  /** ApplyPatchOps, third loop. */
  method ApplyLineOps(lines: seq<string>, sorted: seq<PatchOp>) returns (r: Result<seq<string>>)
    ensures r == ApplyAll(lines, sorted)
  {
    var cur := lines;
    for i := 0 to |sorted|
      invariant ApplyAll(lines, sorted) == ApplyAll(cur, sorted[i..])
    {
      assert sorted[i..][0] == sorted[i] && sorted[i..][1..] == sorted[i + 1..];
      var applied := ApplyLineOp(cur, sorted[i]);
      if applied.Err? {
        return Err;
      }
      cur := applied.value;
    }
    return Ok(cur);
  }

  /** ApplyPatchOps, last loop. */
  method ApplySearchOps(text: string, srOps: seq<PatchOp>) returns (r: Result<string>)
    requires forall op | op in srOps :: op.SearchReplace?
    ensures r == ApplySearches(text, srOps)
  {
    var result := text;
    for i := 0 to |srOps|
      invariant ApplySearches(text, srOps) == ApplySearches(result, srOps[i..])
    {
      assert srOps[i..][0] == srOps[i] && srOps[i..][1..] == srOps[i + 1..];
      var replaced := ApplySearchReplace(result, srOps[i].search, srOps[i].replace, srOps[i].all);
      if replaced.Err? {
        return Err;
      }
      result := replaced.value;
    }
    return Ok(result);
  }

  /** Disjointness as a property of the ops regardless of their order. */
  ghost predicate ApartAnyOrder(ops: multiset<PatchOp>) {
    && (forall x | x in ops :: ops[x] == 1)
    && (forall x, y | x in ops && y in ops && x != y :: Apart(x, y))
  }

  lemma {:induction false} PairwiseApartAnyOrder(ops: seq<PatchOp>)
    requires forall i | 0 <= i < |ops| :: WellFormed(ops[i])
    ensures PairwiseApart(ops) <==> ApartAnyOrder(multiset(ops))
  {
    if ops != [] {
      var a, rest := ops[0], ops[1..];
      assert ops == [a] + rest && multiset(ops) == multiset{a} + multiset(rest);
      PairwiseApartAnyOrder(rest);
      PairwiseApartCons(a, rest);
      ApartAnyOrderPlus(a, multiset(rest));
      assert forall y :: y in rest <==> y in multiset(rest);
    }
  }

  lemma PairwiseApartCons(a: PatchOp, rest: seq<PatchOp>)
    ensures PairwiseApart([a] + rest) <==> PairwiseApart(rest) && forall y | y in rest :: Apart(a, y)
  {
    var ops := [a] + rest;
    if PairwiseApart(ops) {
      forall i, j | 0 <= i < j < |rest| ensures Apart(rest[i], rest[j]) {
        assert Apart(ops[i + 1], ops[j + 1]);
      }
      forall j | 0 <= j < |rest| ensures Apart(a, rest[j]) {
        assert Apart(ops[0], ops[j + 1]);
      }
    }
  }

  lemma ApartAnyOrderPlus(a: PatchOp, m: multiset<PatchOp>)
    requires WellFormed(a)
    ensures ApartAnyOrder(multiset{a} + m) <==> ApartAnyOrder(m) && forall y | y in m :: Apart(a, y)
  {
    var all := multiset{a} + m;
    assert forall x :: x in all <==> x == a || x in m;
    assert forall x | x != a :: all[x] == m[x];
    assert all[a] == m[a] + 1;
    if ApartAnyOrder(all) {
      assert all[a] == 1;
      forall x | x in m ensures m[x] == 1 && Apart(a, x) {
        assert x in all && all[x] == 1;
      }
    }
  }

  /** For any sorted arrangement of the line ops: the neighbour test and the loop together decide
      Applicable, and the loop computes the simultaneous application. */
  lemma SortedIsSame(ops: seq<PatchOp>, sorted: seq<PatchOp>, lines: seq<string>)
    requires multiset(sorted) == multiset(ops) && Descending(sorted)
    ensures Applicable(ops, |lines|) <==> NeighboursApart(sorted) && ApplyAll(lines, sorted).Ok?
    ensures Applicable(ops, |lines|) ==> ApplyAll(lines, sorted) == Ok(Simultaneous(lines, OpSet(ops)))
  {
    assert forall op :: op in ops <==> op in multiset(ops);
    assert forall op :: op in sorted <==> op in multiset(sorted);
    assert OpSet(ops) == OpSet(sorted);
    if NeighboursApart(sorted) {
      ApplyAllSucceeds(lines, sorted);
    }
    if forall i | 0 <= i < |sorted| :: InRange(sorted[i], |lines|) {
      NeighboursSuffice(sorted);
      PairwiseApartAnyOrder(sorted);
      assert forall i | 0 <= i < |ops| :: ops[i] in sorted;
      PairwiseApartAnyOrder(ops);
      if NeighboursApart(sorted) {
        NeighboursGiveChain(sorted);
        BottomUpIsSimultaneous(lines, sorted);
      }
    }
  }
}
