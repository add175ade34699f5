/** The DDIC dependency walk (adt/dependencies.go: chunkNames, the ddicQuery methods, ddicChainDeps).

    A query is asked for a chunk of names of one type; its answer is an arbitrary function of both. */
module Dependencies {
  import opened Text
  import opened AbapSql
  import opened Wrappers

  // ---------------------------------------------------------------------------
  // Chunks
  // ---------------------------------------------------------------------------

  const DDIC_IN_LIST_MAX_BYTES := 150

  /** What the program counts for a chunk: each name, two quotes and a comma. */
  function CountedLen(names: seq<string>): nat {
    if names == [] then 0 else CountedLen(names[..|names| - 1]) + |names[|names| - 1]| + 3
  }

  /** The chunks of cur followed by names. */
  function ChunksFrom(cur: seq<string>, names: seq<string>, maxBytes: nat): seq<seq<string>>
    decreases |names|
  {
    if names == [] then (if cur == [] then [] else [cur])
    else if cur != [] && CountedLen(cur) + |names[0]| + 3 > maxBytes then
      [cur] + ChunksFrom([names[0]], names[1..], maxBytes)
    else ChunksFrom(cur + [names[0]], names[1..], maxBytes)
  }

  function Chunks(names: seq<string>, maxBytes: nat): seq<seq<string>> { ChunksFrom([], names, maxBytes) }

  /** chunkNames. */
  method ChunkNames(names: seq<string>, maxBytes: nat) returns (chunks: seq<seq<string>>)
    ensures chunks == Chunks(names, maxBytes)
  {
    chunks := [];
    var cur: seq<string> := [];
    var curLen := 0;
    ghost var all := Chunks(names, maxBytes);
    assert names[0..] == names;
    for i := 0 to |names|
      invariant curLen == CountedLen(cur)
      invariant Chunking(all, chunks, cur, names[i..], maxBytes)
    {
      var n := names[i];
      assert names[i..] == [n] + names[i + 1..];
      ChunkingOn(all, chunks, cur, n, names[i + 1..], maxBytes);
      var entryLen := |n| + 3;
      if |cur| > 0 && curLen + entryLen > maxBytes {
        chunks := chunks + [cur];
        cur := [];
        curLen := 0;
      }
      cur := cur + [n];
      curLen := curLen + entryLen;
    }
    if |cur| > 0 {
      chunks := chunks + [cur];
    }
  }

  /** The chunks so far, and those of cur followed by the names that are left, are all. */
  ghost predicate Chunking(all: seq<seq<string>>, chunks: seq<seq<string>>, cur: seq<string>, left: seq<string>,
                           maxBytes: nat)
  {
    all == chunks + ChunksFrom(cur, left, maxBytes)
  }

  lemma {:induction false} ChunkingOn(all: seq<seq<string>>, chunks: seq<seq<string>>, cur: seq<string>, n: string,
                                      rest: seq<string>, maxBytes: nat)
    requires Chunking(all, chunks, cur, [n] + rest, maxBytes)
    ensures CountedLen([n]) == |n| + 3 && CountedLen(cur + [n]) == CountedLen(cur) + |n| + 3
    ensures if cur != [] && CountedLen(cur) + |n| + 3 > maxBytes then Chunking(all, chunks + [cur], [n], rest, maxBytes)
            else Chunking(all, chunks, cur + [n], rest, maxBytes)
  {
    assert ([n] + rest)[1..] == rest;
    assert [n][..0] == [] && (cur + [n])[..|cur|] == cur;
  }

  function Whole(chunk: seq<string>): seq<string> { chunk }

  /** No chunk is empty, and one of several names keeps the bound. */
  predicate KeepsBound(chunks: seq<seq<string>>, maxBytes: nat) {
    forall i {:trigger chunks[i]} | 0 <= i < |chunks| ::
      chunks[i] != [] && (|chunks[i]| > 1 ==> CountedLen(chunks[i]) <= maxBytes)
  }

  /** A chunk ends only where the next name would not fit. */
  ghost predicate IsGreedy(chunks: seq<seq<string>>, maxBytes: nat) {
    forall i, j {:trigger chunks[i], chunks[j]} | 0 <= i && j == i + 1 && j < |chunks| && chunks[j] != [] ::
      CountedLen(chunks[i]) + |chunks[j][0]| + 3 > maxBytes
  }

  /** Every name is in exactly one chunk, in order; no chunk is empty, one of several names keeps the
      bound, and each chunk is as long as it can be. */
  ghost predicate IsChunking(chunks: seq<seq<string>>, names: seq<string>, maxBytes: nat) {
    FlatMap(Whole, chunks) == names && KeepsBound(chunks, maxBytes) && IsGreedy(chunks, maxBytes)
  }

  lemma GreedyCons(cur: seq<string>, chunks: seq<seq<string>>, maxBytes: nat)
    requires IsGreedy(chunks, maxBytes) && chunks != [] && chunks[0] != []
             && CountedLen(cur) + |chunks[0][0]| + 3 > maxBytes
    ensures IsGreedy([cur] + chunks, maxBytes)
  {
    var all := [cur] + chunks;
    forall i, j {:trigger all[i], all[j]} | 0 <= i && j == i + 1 && j < |all| && all[j] != []
      ensures CountedLen(all[i]) + |all[j][0]| + 3 > maxBytes
    {
      assert all[j] == chunks[j - 1];
      assert i > 0 ==> all[i] == chunks[i - 1];
    }
  }

  lemma ChunkingCons(cur: seq<string>, chunks: seq<seq<string>>, names: seq<string>, maxBytes: nat)
    requires IsChunking(chunks, names, maxBytes) && chunks != []
    requires cur != [] && (|cur| > 1 ==> CountedLen(cur) <= maxBytes)
    requires CountedLen(cur) + |chunks[0][0]| + 3 > maxBytes
    ensures IsChunking([cur] + chunks, cur + names, maxBytes)
  {
    FlatMapCons(Whole, cur, chunks);
    GreedyCons(cur, chunks, maxBytes);
  }

  lemma ChunkingOne(cur: seq<string>, maxBytes: nat)
    requires |cur| > 1 ==> CountedLen(cur) <= maxBytes
    ensures IsChunking(if cur == [] then [] else [cur], cur, maxBytes)
  {
    FlatMapOne(Whole, cur);
  }

  lemma CountedLenSnoc(names: seq<string>, n: string)
    ensures CountedLen(names + [n]) == CountedLen(names) + |n| + 3
  {
    assert (names + [n])[..|names|] == names;
  }

  lemma {:induction false} ChunksFromIsChunking(cur: seq<string>, names: seq<string>, maxBytes: nat)
    requires |cur| > 1 ==> CountedLen(cur) <= maxBytes
    ensures var chunks := ChunksFrom(cur, names, maxBytes);
            && IsChunking(chunks, cur + names, maxBytes)
            && (cur != [] ==> chunks != [] && cur <= chunks[0])
    decreases |names|
  {
    if names == [] {
      ChunkingOne(cur, maxBytes);
      assert cur + names == cur;
    } else {
      var n, rest := names[0], names[1..];
      assert names == [n] + rest;
      if cur != [] && CountedLen(cur) + |n| + 3 > maxBytes {
        ChunksFromIsChunking([n], rest, maxBytes);
        ChunkingCons(cur, ChunksFrom([n], rest, maxBytes), names, maxBytes);
      } else {
        CountedLenSnoc(cur, n);
        ChunksFromIsChunking(cur + [n], rest, maxBytes);
        assert cur + names == (cur + [n]) + rest;
      }
    }
  }

  lemma ChunksAreRight(names: seq<string>, maxBytes: nat)
    ensures IsChunking(Chunks(names, maxBytes), names, maxBytes)
  {
    ChunksFromIsChunking([], names, maxBytes);
    assert [] + names == names;
  }

  /** buildSQLInList. */
  function SqlInList(names: seq<string>): string {
    Join(seq(|names|, i requires 0 <= i < |names| => Literal(names[i])), ",")
  }

  /** For names without quotes the count is one more than the length of the list that is sent; so
      with IsChunking a list of several such names stays below maxBytes. */
  lemma {:induction false} CountedLenIsSent(names: seq<string>)
    requires names != [] && forall n | n in names :: '\'' !in n
    ensures |SqlInList(names)| == CountedLen(names) - 1
  {
    var m := |names| - 1;
    var quoted := seq(|names|, i requires 0 <= i < |names| => Literal(names[i]));
    QuoteFree(names[m]);
    assert names[m] in names;
    assert |Literal(names[m])| == |names[m]| + 2;
    if m == 0 {
      assert names[..0] == [];
      assert SqlInList(names) == quoted[0];
    } else {
      CountedLenIsSent(names[..m]);
      var before := seq(m, i requires 0 <= i < m => Literal(names[..m][i]));
      assert quoted == before + [Literal(names[m])];
      JoinAppend(before, [Literal(names[m])], ",");
    }
  }

  /** The IN list of several names without quotes is shorter than 150 characters. */
  lemma InListsAreShort(names: seq<string>, i: nat)
    requires i < |Chunks(names, DDIC_IN_LIST_MAX_BYTES)| && |Chunks(names, DDIC_IN_LIST_MAX_BYTES)[i]| > 1
    requires forall n | n in Chunks(names, DDIC_IN_LIST_MAX_BYTES)[i] :: '\'' !in n
    ensures |SqlInList(Chunks(names, DDIC_IN_LIST_MAX_BYTES)[i])| < 150
  {
    var chunks := Chunks(names, DDIC_IN_LIST_MAX_BYTES);
    ChunksAreRight(names, DDIC_IN_LIST_MAX_BYTES);
    assert KeepsBound(chunks, DDIC_IN_LIST_MAX_BYTES) && chunks[i] != [];
    CountedLenIsSent(chunks[i]);
  }

  // ---------------------------------------------------------------------------
  // Nodes, answers and what they add
  // ---------------------------------------------------------------------------

  /** The object kinds the walk follows, in the order it queries them. */
  datatype Kind = TABL | DTEL | DOMA | TTYP

  const KINDS: seq<Kind> := [TABL, DTEL, DOMA, TTYP]

  function KindText(kind: Kind): string {
    match kind case TABL => "TABL" case DTEL => "DTEL" case DOMA => "DOMA" case TTYP => "TTYP"
  }

  datatype UseType = DATA_ELEMENT | TABLE | STRUCTURE | DOMAIN | VIEW | TABLE_TYPE | UNKNOWN | MISSING

  datatype Node = Node(typ: Kind, name: string)

  /** A dependency, or a candidate for one. */
  datatype Dep = Dep(node: Node, useType: UseType)

  datatype Answer = Rows(rows: seq<seq<string>>) | Failed | Unauthorized

  type Ask = (Kind, seq<string>) -> Answer

  /** classifyDDICObjects: none after a 401. */
  type Classify = seq<string> -> Option<map<string, UseType>>

  function Key(n: Node): string { KindText(n.typ) + "|" + n.name }

  /** The keys of the visited map tell typed nodes apart, as all type names have four characters. */
  lemma KeyIsInjective(a: Node, b: Node)
    ensures Key(a) == Key(b) <==> a == b
  {
    assert Key(a)[..4] == KindText(a.typ) && Key(b)[..4] == KindText(b.typ);
    assert Key(a)[5..] == a.name && Key(b)[5..] == b.name;
    KindTextIsInjective(a.typ, b.typ);
  }

  lemma KindTextIsInjective(a: Kind, b: Kind)
    ensures KindText(a) == KindText(b) <==> a == b
  {
    assert KindText(a)[0] == KindText(b)[0] && KindText(a)[1] == KindText(b)[1] ==> a == b;
  }

  /** The walk's variables that addDep changes. */
  datatype Marks = Marks(visited: set<string>, deps: seq<Dep>, next: seq<Node>)

  function AddOne(m: Marks, d: Dep): Marks {
    if d.node.name == "" || Key(d.node) in m.visited then m
    else Marks(m.visited + {Key(d.node)}, m.deps + [d], m.next + [d.node])
  }

  function AddIf(m: Marks, c: bool, typ: Kind, name: string, useType: UseType): Marks {
    if c then AddOne(m, Dep(Node(typ, name), useType)) else m
  }

  /** What one row of a type's catalog table adds at once. */
  function AddRow(m: Marks, typ: Kind, row: seq<string>): Marks {
    match typ
    case TABL => if |row| < 2 then m
                 else AddIf(AddIf(m, row[0] != "", DTEL, row[0], DATA_ELEMENT), row[1] != "", TABL, row[1], TABLE)
    case DTEL => AddIf(m, |row| >= 1, DOMA, if |row| >= 1 then row[0] else "", DOMAIN)
    case DOMA => AddIf(m, |row| >= 1, TABL, if |row| >= 1 then row[0] else "", TABLE)
    case TTYP => AddIf(m, IsRowKind(row, "E"), DTEL, if IsRowKind(row, "E") then row[0] else "", DATA_ELEMENT)
  }

  predicate IsRowKind(row: seq<string>, rowKind: string) { |row| >= 2 && row[0] != "" && row[1] == rowKind }

  /** The row types of a table type that still have to be classified. */
  function RowStructures(typ: Kind, row: seq<string>): seq<string> {
    if typ == TTYP && IsRowKind(row, "S") then [row[0]] else []
  }

  function AddRows(m: Marks, typ: Kind, rows: seq<seq<string>>): Marks
    decreases |rows|
  {
    if rows == [] then m else AddRows(AddRow(m, typ, rows[0]), typ, rows[1..])
  }

  function RowsStructures(typ: Kind, rows: seq<seq<string>>): seq<string> {
    if rows == [] then [] else RowStructures(typ, rows[0]) + RowsStructures(typ, rows[1..])
  }

  function UseTypeOf(classes: map<string, UseType>, name: string): UseType {
    if name in classes then classes[name] else MISSING
  }

  function AddClassified(m: Marks, names: seq<string>, classes: map<string, UseType>): Marks
    decreases |names|
  {
    if names == [] then m
    else AddClassified(AddOne(m, Dep(Node(TABL, names[0]), UseTypeOf(classes, names[0]))), names[1..], classes)
  }

  /** The state of the walk; rejected says a 401 has ended it. */
  datatype State = State(marks: Marks, warnings: nat, rejected: bool)

  const DDIC_MAX_FIELD_ROWS := 2000

  function Answered(s: State, typ: Kind, answer: Answer): State {
    match answer
    case Unauthorized => s.(rejected := true)
    case Failed => s.(warnings := s.warnings + 1)
    case Rows(rows) =>
      State(AddRows(s.marks, typ, rows), s.warnings + (if typ == TABL && |rows| >= DDIC_MAX_FIELD_ROWS then 1 else 0),
            s.rejected)
  }

  function AnswerStructures(typ: Kind, answer: Answer): seq<string> {
    if answer.Rows? then RowsStructures(typ, answer.rows) else []
  }

  /** The chunks of one type, up to a 401. */
  function AskChunks(s: State, ask: Ask, typ: Kind, chunks: seq<seq<string>>): State
    decreases |chunks|
  {
    if chunks == [] || s.rejected then s else AskChunks(Answered(s, typ, ask(typ, chunks[0])), ask, typ, chunks[1..])
  }

  function ChunksStructures(ask: Ask, typ: Kind, chunks: seq<seq<string>>): seq<string> {
    if chunks == [] then [] else AnswerStructures(typ, ask(typ, chunks[0])) + ChunksStructures(ask, typ, chunks[1..])
  }

  function ClassifyOne(s: State, classify: Classify, chunk: seq<string>): State {
    if classify(chunk).None? then s.(rejected := true)
    else s.(marks := AddClassified(s.marks, chunk, classify(chunk).value))
  }

  function ClassifyChunks(s: State, classify: Classify, chunks: seq<seq<string>>): State
    decreases |chunks|
  {
    if chunks == [] || s.rejected then s else ClassifyChunks(ClassifyOne(s, classify, chunks[0]), classify, chunks[1..])
  }

  /** The query method of one type. */
  function AskType(s: State, ask: Ask, classify: Classify, typ: Kind, names: seq<string>): State {
    var chunks := Chunks(names, DDIC_IN_LIST_MAX_BYTES);
    var s' := AskChunks(s, ask, typ, chunks);
    if s'.rejected then s'
    else ClassifyChunks(s', classify, Chunks(ChunksStructures(ask, typ, chunks), DDIC_IN_LIST_MAX_BYTES))
  }

  /** The names of one type, in order. */
  function NamesOf(nodes: seq<Node>, typ: Kind): seq<string> {
    if nodes == [] then [] else
    NamesOf(nodes[..|nodes| - 1], typ) + (if nodes[|nodes| - 1].typ == typ then [nodes[|nodes| - 1].name] else [])
  }

  /** One level of the walk: the types in the order they are queried. */
  function AskLevel(s: State, ask: Ask, classify: Classify, current: seq<Node>, kinds: seq<Kind>): State
    decreases |kinds|
  {
    if kinds == [] || s.rejected then s
    else AskLevel(AskType(s, ask, classify, kinds[0], NamesOf(current, kinds[0])), ask, classify, current, kinds[1..])
  }

  /** What one level makes of the state, given the nodes it starts from. */
  type LevelFn = (State, seq<Node>) -> State

  function OneLevel(s: State, ask: Ask, classify: Classify, current: seq<Node>, kinds: seq<Kind>): State {
    AskLevel(s.(marks := s.marks.(next := [])), ask, classify, current, kinds)
  }

  function Level(ask: Ask, classify: Classify, kinds: seq<Kind>): LevelFn {
    (s: State, current: seq<Node>) => OneLevel(s, ask, classify, current, kinds)
  }

  /** depth more levels from the nodes of the current one. */
  function WalkFrom(level: LevelFn, s: State, current: seq<Node>, depth: nat): State
    decreases depth
  {
    if depth == 0 || current == [] || s.rejected then s else
    var s' := level(s, current);
    WalkFrom(level, s', s'.marks.next, depth - 1)
  }

  function Start(start: Node): State { State(Marks({Key(start)}, [], []), 0, false) }

  // ---------------------------------------------------------------------------
  // The program
  // ---------------------------------------------------------------------------

  class Walk {
    var visited: set<string>
    var deps: seq<Dep>
    var next: seq<Node>
    var warnings: nat

    function View(): Marks
      reads this
    {
      Marks(visited, deps, next)
    }

    function At(rejected: bool): State
      reads this
    {
      State(View(), warnings, rejected)
    }

    constructor (start: Node)
      ensures At(false) == Start(start)
    {
      visited, deps, next, warnings := {Key(start)}, [], [], 0;
    }

    /** addDep. */
    method AddDep(name: string, typ: Kind, useType: UseType)
      modifies this`visited, this`deps, this`next
      ensures View() == AddOne(old(View()), Dep(Node(typ, name), useType))
    {
      if name == "" {
        return;
      }
      var k := KindText(typ) + "|" + name;
      if k in visited {
        return;
      }
      visited := visited + {k};
      deps := deps + [Dep(Node(typ, name), useType)];
      next := next + [Node(typ, name)];
    }

    /** The loop body of the four queries; a row type to classify is given back. */
    method Row(typ: Kind, row: seq<string>) returns (structures: seq<string>)
      modifies this`visited, this`deps, this`next
      ensures View() == AddRow(old(View()), typ, row)
      ensures structures == RowStructures(typ, row)
    {
      structures := [];
      match typ
      case TABL =>
        if |row| < 2 {
          return;
        }
        if row[0] != "" {
          AddDep(row[0], DTEL, DATA_ELEMENT);
        }
        if row[1] != "" {
          AddDep(row[1], TABL, TABLE);
        }
      case DTEL =>
        if |row| >= 1 {
          AddDep(row[0], DOMA, DOMAIN);
        }
      case DOMA =>
        if |row| >= 1 {
          AddDep(row[0], TABL, TABLE);
        }
      case TTYP =>
        if |row| < 2 || row[0] == "" {
          return;
        }
        if row[1] == "E" {
          AddDep(row[0], DTEL, DATA_ELEMENT);
        } else if row[1] == "S" {
          structures := [row[0]];
        }
    }

    method AllRows(typ: Kind, rows: seq<seq<string>>) returns (structures: seq<string>)
      modifies this`visited, this`deps, this`next
      ensures View() == AddRows(old(View()), typ, rows)
      ensures structures == RowsStructures(typ, rows)
    {
      structures := [];
      ghost var all, found := AddRows(View(), typ, rows), RowsStructures(typ, rows);
      assert rows[0..] == rows;
      for i := 0 to |rows|
        invariant Adding(all, found, View(), structures, typ, rows[i..])
      {
        AddingOn(all, found, View(), structures, typ, rows[i], rows[i + 1..]);
        assert rows[i..] == [rows[i]] + rows[i + 1..];
        var more := Row(typ, rows[i]);
        structures := structures + more;
      }
    }

    /** One query. */
    method QueryChunk(ask: Ask, typ: Kind, chunk: seq<string>) returns (rejected: bool, structures: seq<string>)
      modifies this
      ensures At(rejected) == Answered(old(At(false)), typ, ask(typ, chunk))
      ensures structures == AnswerStructures(typ, ask(typ, chunk))
    {
      rejected, structures := false, [];
      match ask(typ, chunk)
      case Unauthorized => rejected := true;
      case Failed => warnings := warnings + 1;
      case Rows(rows) =>
        structures := AllRows(typ, rows);
        if typ == TABL && |rows| >= DDIC_MAX_FIELD_ROWS {
          warnings := warnings + 1;
        }
    }

    /** The loop over the chunks that the four query methods share. */
    method QueryChunks(ask: Ask, typ: Kind, chunks: seq<seq<string>>) returns (rejected: bool, structures: seq<string>)
      modifies this
      ensures At(rejected) == AskChunks(old(At(false)), ask, typ, chunks)
      ensures !rejected ==> structures == ChunksStructures(ask, typ, chunks)
    {
      structures := [];
      ghost var all, found := AskChunks(At(false), ask, typ, chunks), ChunksStructures(ask, typ, chunks);
      assert chunks[0..] == chunks;
      for i := 0 to |chunks|
        invariant Asking(all, found, At(false), structures, ask, typ, chunks[i..])
      {
        AskingOn(all, found, At(false), structures, ask, typ, chunks[i], chunks[i + 1..]);
        assert chunks[i..] == [chunks[i]] + chunks[i + 1..];
        var more;
        rejected, more := QueryChunk(ask, typ, chunks[i]);
        if rejected {
          return;
        }
        structures := structures + more;
      }
      rejected := false;
    }

    method Classified(names: seq<string>, classes: map<string, UseType>)
      modifies this`visited, this`deps, this`next
      ensures View() == AddClassified(old(View()), names, classes)
    {
      assert names[0..] == names;
      for i := 0 to |names|
        invariant AddClassified(View(), names[i..], classes) == AddClassified(old(View()), names, classes)
      {
        assert names[i..][0] == names[i] && names[i..][1..] == names[i + 1..];
        AddDep(names[i], TABL, UseTypeOf(classes, names[i]));
      }
    }

    /** The second loop of ddicQueryTtyp; a name without a class gets no use type. */
    method ClassifyStructures(classify: Classify, chunks: seq<seq<string>>) returns (rejected: bool)
      modifies this
      ensures At(rejected) == ClassifyChunks(old(At(false)), classify, chunks)
    {
      assert chunks[0..] == chunks;
      for i := 0 to |chunks|
        invariant ClassifyChunks(At(false), classify, chunks[i..]) == ClassifyChunks(old(At(false)), classify, chunks)
      {
        assert chunks[i..][0] == chunks[i] && chunks[i..][1..] == chunks[i + 1..];
        var cls := classify(chunks[i]);
        if cls.None? {
          return true;
        }
        Classified(chunks[i], cls.value);
      }
      rejected := false;
    }

    /** The query method of one type, with the names of the level that have it. */
    method QueryType(ask: Ask, classify: Classify, typ: Kind, names: seq<string>) returns (rejected: bool)
      modifies this
      ensures At(rejected) == AskType(old(At(false)), ask, classify, typ, names)
    {
      var chunks := ChunkNames(names, DDIC_IN_LIST_MAX_BYTES);
      var structures;
      rejected, structures := QueryChunks(ask, typ, chunks);
      if rejected {
        return;
      }
      var clsChunks := ChunkNames(structures, DDIC_IN_LIST_MAX_BYTES);
      rejected := ClassifyStructures(classify, clsChunks);
    }

    /** The queries of one level. */
    method QueryLevel(ask: Ask, classify: Classify, kinds: seq<Kind>, current: seq<Node>) returns (rejected: bool)
      modifies this
      ensures At(rejected) == AskLevel(old(At(false)), ask, classify, current, kinds)
    {
      var typeGroups := GroupByType(current);
      assert kinds[0..] == kinds;
      for i := 0 to |kinds|
        invariant AskLevel(At(false), ask, classify, current, kinds[i..])
                  == AskLevel(old(At(false)), ask, classify, current, kinds)
      {
        assert kinds[i..][0] == kinds[i] && kinds[i..][1..] == kinds[i + 1..];
        var names := if kinds[i] in typeGroups then typeGroups[kinds[i]] else [];
        if |names| > 0 {
          rejected := QueryType(ask, classify, kinds[i], names);
          if rejected {
            return;
          }
        } else {
          NoNamesAskNothing(At(false), ask, classify, kinds[i]);
        }
      }
      rejected := false;
    }
  }

  /** Adding the rows that are left, to m and structures, comes to all and found. */
  ghost predicate Adding(all: Marks, found: seq<string>, m: Marks, structures: seq<string>, typ: Kind,
                         left: seq<seq<string>>)
  {
    AddRows(m, typ, left) == all && structures + RowsStructures(typ, left) == found
  }

  lemma AddingOn(all: Marks, found: seq<string>, m: Marks, structures: seq<string>, typ: Kind, row: seq<string>,
                 rest: seq<seq<string>>)
    ensures Adding(all, found, m, structures, typ, [row] + rest) ==>
              Adding(all, found, AddRow(m, typ, row), structures + RowStructures(typ, row), typ, rest)
  {
    var rows := [row] + rest;
    assert rows[0] == row && rows[1..] == rest;
    var now := RowStructures(typ, row);
    assert structures + (now + RowsStructures(typ, rest)) == (structures + now) + RowsStructures(typ, rest);
  }

  /** Asking for the chunks that are left, from s and structures on, comes to all and found. */
  ghost predicate Asking(all: State, found: seq<string>, s: State, structures: seq<string>, ask: Ask, typ: Kind,
                         left: seq<seq<string>>)
  {
    AskChunks(s, ask, typ, left) == all && structures + ChunksStructures(ask, typ, left) == found
  }

  lemma AskingOn(all: State, found: seq<string>, s: State, structures: seq<string>, ask: Ask, typ: Kind,
                 chunk: seq<string>, rest: seq<seq<string>>)
    ensures var s1 := Answered(s, typ, ask(typ, chunk));
            !s.rejected && Asking(all, found, s, structures, ask, typ, [chunk] + rest) ==>
              && Asking(all, found, s1, structures + AnswerStructures(typ, ask(typ, chunk)), ask, typ, rest)
              && (s1.rejected ==> all == s1)
  {
    var chunks := [chunk] + rest;
    assert chunks[0] == chunk && chunks[1..] == rest;
    var now := AnswerStructures(typ, ask(typ, chunk));
    assert structures + (now + ChunksStructures(ask, typ, rest))
           == (structures + now) + ChunksStructures(ask, typ, rest);
  }

  lemma NoNamesAskNothing(s: State, ask: Ask, classify: Classify, typ: Kind)
    ensures AskType(s, ask, classify, typ, []) == s
  {}

  method GroupByType(current: seq<Node>) returns (typeGroups: map<Kind, seq<string>>)
    ensures forall typ :: NamesOf(current, typ) == if typ in typeGroups then typeGroups[typ] else []
  {
    typeGroups := map[];
    for i := 0 to |current|
      invariant forall typ :: NamesOf(current[..i], typ) == if typ in typeGroups then typeGroups[typ] else []
    {
      var e := current[i];
      assert current[..i + 1][..i] == current[..i];
      typeGroups := typeGroups[e.typ := (if e.typ in typeGroups then typeGroups[e.typ] else []) + [e.name]];
    }
    assert current[..|current|] == current;
  }

  ghost predicate Follows(level: LevelFn, ask: Ask, classify: Classify, kinds: seq<Kind>) {
    forall s, current {:trigger OneLevel(s, ask, classify, current, kinds)} ::
      level(s, current) == OneLevel(s, ask, classify, current, kinds)
  }

  method WalkLevel(walk: Walk, ask: Ask, classify: Classify, kinds: seq<Kind>, current: seq<Node>, ghost level: LevelFn)
    returns (rejected: bool)
    requires Follows(level, ask, classify, kinds)
    modifies walk
    ensures walk.At(rejected) == level(old(walk.At(false)), current)
  {
    ghost var s := walk.At(false);
    walk.next := [];
    rejected := walk.QueryLevel(ask, classify, kinds, current);
    assert walk.At(rejected) == OneLevel(s, ask, classify, current, kinds);
  }

  method WalkLevels(walk: Walk, ask: Ask, classify: Classify, kinds: seq<Kind>, first: seq<Node>, maxDepth: nat,
                    ghost level: LevelFn)
    returns (rejected: bool)
    requires Follows(level, ask, classify, kinds)
    modifies walk
    ensures walk.At(rejected) == WalkFrom(level, old(walk.At(false)), first, maxDepth)
  {
    var current := first;
    rejected := false;
    ghost var all := WalkFrom(level, walk.At(false), first, maxDepth);
    for depth := 0 to maxDepth
      invariant Walking(all, level, walk.At(false), current, maxDepth - depth)
    {
      if |current| == 0 {
        WalkingEnds(all, level, walk.At(false), current, maxDepth - depth);
        return;
      }
      WalkingOn(all, level, walk.At(false), current, maxDepth - depth);
      rejected := WalkLevel(walk, ask, classify, kinds, current, level);
      current := walk.next;
      if rejected {
        return;
      }
    }
    WalkingEnds(all, level, walk.At(false), current, 0);
  }

  /** Walking on from s comes to all. */
  ghost predicate Walking(all: State, level: LevelFn, s: State, current: seq<Node>, depth: nat) {
    WalkFrom(level, s, current, depth) == all
  }

  lemma WalkingOn(all: State, level: LevelFn, s: State, current: seq<Node>, depth: nat)
    requires Walking(all, level, s, current, depth) && depth > 0 && current != [] && !s.rejected
    ensures var s1 := level(s, current);
            Walking(all, level, s1, s1.marks.next, depth - 1) && (s1.rejected ==> all == s1)
  {}

  lemma WalkingEnds(all: State, level: LevelFn, s: State, current: seq<Node>, depth: nat)
    requires Walking(all, level, s, current, depth) && (depth == 0 || current == [])
    ensures s == all
  {}

  datatype Result = Walked(deps: seq<Dep>, warnings: nat) | Rejected

  function WalkResult(start: Node, maxDepth: nat, ask: Ask, classify: Classify): Result {
    var s := WalkFrom(Level(ask, classify, KINDS), Start(start), [start], maxDepth);
    if s.rejected then Rejected else Walked(s.marks.deps, s.warnings)
  }

  /** ddicChainDeps. */
  method DdicChainDeps(ask: Ask, classify: Classify, name: string, objType: Kind, maxDepth: nat) returns (r: Result)
    ensures r == WalkResult(Node(objType, name), maxDepth, ask, classify)
  {
    var walk := new Walk(Node(objType, name));
    var rejected := WalkLevels(walk, ask, classify, KINDS, [Node(objType, name)], maxDepth,
                               Level(ask, classify, KINDS));
    return if rejected then Rejected else Walked(walk.deps, walk.warnings);
  }

  // ---------------------------------------------------------------------------
  // What a level adds, whatever the answers
  // ---------------------------------------------------------------------------

  function Named(n: Node): set<Node> { if n.name == "" then {} else {n} }

  /** The nodes one row adds at once. */
  function RowAdds(typ: Kind, row: seq<string>): set<Node> {
    match typ
    case TABL => if |row| < 2 then {} else Named(Node(DTEL, row[0])) + Named(Node(TABL, row[1]))
    case DTEL => if |row| < 1 then {} else Named(Node(DOMA, row[0]))
    case DOMA => if |row| < 1 then {} else Named(Node(TABL, row[0]))
    case TTYP => if IsRowKind(row, "E") then {Node(DTEL, row[0])} else {}
  }

  function RowsAdds(typ: Kind, rows: seq<seq<string>>): set<Node> {
    if rows == [] then {} else RowAdds(typ, rows[0]) + RowsAdds(typ, rows[1..])
  }

  function Structures(names: seq<string>): set<Node> {
    if names == [] then {} else Named(Node(TABL, names[0])) + Structures(names[1..])
  }

  function AnswerAdds(typ: Kind, answer: Answer): set<Node> { if answer.Rows? then RowsAdds(typ, answer.rows) else {} }

  function ChunksAdds(ask: Ask, typ: Kind, chunks: seq<seq<string>>): set<Node> {
    if chunks == [] then {} else AnswerAdds(typ, ask(typ, chunks[0])) + ChunksAdds(ask, typ, chunks[1..])
  }

  function AllStructures(chunks: seq<seq<string>>): set<Node> {
    if chunks == [] then {} else Structures(chunks[0]) + AllStructures(chunks[1..])
  }

  function TypeAdds(ask: Ask, typ: Kind, names: seq<string>): set<Node> {
    var chunks := Chunks(names, DDIC_IN_LIST_MAX_BYTES);
    ChunksAdds(ask, typ, chunks) + Structures(ChunksStructures(ask, typ, chunks))
  }

  function LevelAdds(ask: Ask, current: seq<Node>, kinds: seq<Kind>): set<Node> {
    if kinds == [] then {}
    else TypeAdds(ask, kinds[0], NamesOf(current, kinds[0])) + LevelAdds(ask, current, kinds[1..])
  }

  function Keys(ns: set<Node>): set<string> { set n | n in ns :: Key(n) }

  lemma KeysMember(ns: set<Node>, n: Node)
    ensures Key(n) in Keys(ns) <==> n in ns
  {
    if Key(n) in Keys(ns) {
      var n' :| n' in ns && Key(n') == Key(n);
      KeyIsInjective(n, n');
    }
  }

  lemma KeysUnion(a: set<Node>, b: set<Node>)
    ensures Keys(a + b) == Keys(a) + Keys(b)
  {}

  /** m' is m with exactly the nodes of ns that were not visited added, each once, to visited, deps
      and next. */
  ghost predicate Grew(m: Marks, m': Marks, ns: set<Node>) {
    && m'.visited == m.visited + Keys(ns)
    && m.next <= m'.next && m.deps <= m'.deps && |m'.deps| - |m.deps| == |m'.next| - |m.next|
    && (forall i {:trigger m'.next[i]} | |m.next| <= i < |m'.next| ::
          IsNew(m, ns, m'.next[i]) && m'.deps[|m.deps| + (i - |m.next|)].node == m'.next[i])
    && (forall i, j {:trigger m'.next[i], m'.next[j]} | |m.next| <= i < j < |m'.next| :: m'.next[i] != m'.next[j])
    && (forall n | IsNew(m, ns, n) :: n in m'.next[|m.next|..])
  }

  predicate IsNew(m: Marks, ns: set<Node>, n: Node) { n in ns && Key(n) !in m.visited }

  lemma GrewNothing(m: Marks)
    ensures Grew(m, m, {})
  {}

  lemma AddOneGrows(m: Marks, d: Dep)
    ensures Grew(m, AddOne(m, d), Named(d.node))
  {
    if d.node.name != "" {
      assert Keys({d.node}) == {Key(d.node)};
    }
  }

  lemma GrewTwice(m: Marks, m1: Marks, m2: Marks, a: set<Node>, b: set<Node>)
    requires Grew(m, m1, a) && Grew(m1, m2, b)
    ensures Grew(m, m2, a + b)
  {
    KeysUnion(a, b);
    forall i {:trigger m2.next[i]} | |m.next| <= i < |m2.next|
      ensures IsNew(m, a + b, m2.next[i]) && m2.deps[|m.deps| + (i - |m.next|)].node == m2.next[i]
    {
      NewNodesAreNew(m, m1, m2, a, b, i);
    }
    forall i, j {:trigger m2.next[i], m2.next[j]} | |m.next| <= i < j < |m2.next|
      ensures m2.next[i] != m2.next[j]
    {
      NewNodesDiffer(m, m1, m2, a, b, i, j);
    }
    forall n | IsNew(m, a + b, n) ensures n in m2.next[|m.next|..] {
      NewNodesFound(m, m1, m2, a, b, n);
    }
  }

  lemma NewNodesAreNew(m: Marks, m1: Marks, m2: Marks, a: set<Node>, b: set<Node>, i: nat)
    requires Grew(m, m1, a) && Grew(m1, m2, b) && |m.next| <= i < |m2.next|
    ensures IsNew(m, a + b, m2.next[i]) && m2.deps[|m.deps| + (i - |m.next|)].node == m2.next[i]
  {
    if i < |m1.next| {
      GrownStays(m, m1, m2, a, b, i);
    } else {
      StaysNew(m, m1, a, b, m2.next[i]);
    }
  }

  lemma GrownStays(m: Marks, m1: Marks, m2: Marks, a: set<Node>, b: set<Node>, i: nat)
    requires |m.next| <= i < |m1.next| && m1.next <= m2.next && m1.deps <= m2.deps
    requires |m1.deps| - |m.deps| == |m1.next| - |m.next| && IsNew(m, a, m1.next[i])
    requires m1.deps[|m.deps| + (i - |m.next|)].node == m1.next[i]
    ensures IsNew(m, a + b, m2.next[i]) && m2.deps[|m.deps| + (i - |m.next|)].node == m2.next[i]
  {}

  lemma StaysNew(m: Marks, m1: Marks, a: set<Node>, b: set<Node>, n: Node)
    requires m1.visited == m.visited + Keys(a) && IsNew(m1, b, n)
    ensures IsNew(m, a + b, n)
  {}

  lemma NewNodesDiffer(m: Marks, m1: Marks, m2: Marks, a: set<Node>, b: set<Node>, i: nat, j: nat)
    requires Grew(m, m1, a) && Grew(m1, m2, b) && |m.next| <= i < j < |m2.next|
    ensures m2.next[i] != m2.next[j]
  {
    if j < |m1.next| {
      assert m2.next[i] == m1.next[i] && m2.next[j] == m1.next[j];
    } else if i < |m1.next| {
      assert m2.next[i] == m1.next[i];
      KeysMember(a, m1.next[i]);
    }
  }

  lemma NewNodesFound(m: Marks, m1: Marks, m2: Marks, a: set<Node>, b: set<Node>, n: Node)
    requires Grew(m, m1, a) && Grew(m1, m2, b) && IsNew(m, a + b, n)
    ensures n in m2.next[|m.next|..]
  {
    KeysMember(a, n);
    if n in a {
      assert IsNew(m, a, n);
      var i :| 0 <= i < |m1.next[|m.next|..]| && m1.next[|m.next|..][i] == n;
      assert m2.next[|m.next|..][i] == n;
    } else {
      assert IsNew(m1, b, n);
      var i :| 0 <= i < |m2.next[|m1.next|..]| && m2.next[|m1.next|..][i] == n;
      assert m2.next[|m.next|..][i + |m1.next| - |m.next|] == n;
    }
  }

  lemma AddRowGrows(m: Marks, typ: Kind, row: seq<string>)
    ensures Grew(m, AddRow(m, typ, row), RowAdds(typ, row))
  {
    GrewNothing(m);
    match typ
    case TABL =>
      if |row| >= 2 {
        var m1 := AddIf(m, row[0] != "", DTEL, row[0], DATA_ELEMENT);
        AddOneGrows(m, Dep(Node(DTEL, row[0]), DATA_ELEMENT));
        GrewNothing(m1);
        AddOneGrows(m1, Dep(Node(TABL, row[1]), TABLE));
        GrewTwice(m, m1, AddRow(m, typ, row), Named(Node(DTEL, row[0])), Named(Node(TABL, row[1])));
      }
    case DTEL => if |row| >= 1 { AddOneGrows(m, Dep(Node(DOMA, row[0]), DOMAIN)); }
    case DOMA => if |row| >= 1 { AddOneGrows(m, Dep(Node(TABL, row[0]), TABLE)); }
    case TTYP => if IsRowKind(row, "E") { AddOneGrows(m, Dep(Node(DTEL, row[0]), DATA_ELEMENT)); }
  }

  lemma {:induction false} AddRowsGrows(m: Marks, typ: Kind, rows: seq<seq<string>>)
    ensures Grew(m, AddRows(m, typ, rows), RowsAdds(typ, rows))
    decreases |rows|
  {
    if rows == [] {
      GrewNothing(m);
    } else {
      var m1 := AddRow(m, typ, rows[0]);
      AddRowGrows(m, typ, rows[0]);
      AddRowsGrows(m1, typ, rows[1..]);
      GrewTwice(m, m1, AddRows(m1, typ, rows[1..]), RowAdds(typ, rows[0]), RowsAdds(typ, rows[1..]));
    }
  }

  lemma {:induction false} AddClassifiedGrows(m: Marks, names: seq<string>, classes: map<string, UseType>)
    ensures Grew(m, AddClassified(m, names, classes), Structures(names))
    decreases |names|
  {
    if names == [] {
      GrewNothing(m);
    } else {
      var d := Dep(Node(TABL, names[0]), UseTypeOf(classes, names[0]));
      AddOneGrows(m, d);
      AddClassifiedGrows(AddOne(m, d), names[1..], classes);
      GrewTwice(m, AddOne(m, d), AddClassified(AddOne(m, d), names[1..], classes), Named(d.node),
                Structures(names[1..]));
    }
  }

  lemma {:induction false} ChunksGrow(s: State, ask: Ask, typ: Kind, chunks: seq<seq<string>>)
    requires !AskChunks(s, ask, typ, chunks).rejected
    ensures Grew(s.marks, AskChunks(s, ask, typ, chunks).marks, ChunksAdds(ask, typ, chunks))
    decreases |chunks|
  {
    GrewNothing(s.marks);
    if chunks != [] && !s.rejected {
      var answer := ask(typ, chunks[0]);
      var s1 := Answered(s, typ, answer);
      if answer.Rows? {
        AddRowsGrows(s.marks, typ, answer.rows);
      }
      ChunksGrow(s1, ask, typ, chunks[1..]);
      GrewTwice(s.marks, s1.marks, AskChunks(s1, ask, typ, chunks[1..]).marks, AnswerAdds(typ, answer),
                ChunksAdds(ask, typ, chunks[1..]));
    }
  }

  lemma {:induction false} ClassesGrow(s: State, classify: Classify, chunks: seq<seq<string>>)
    requires !ClassifyChunks(s, classify, chunks).rejected
    ensures Grew(s.marks, ClassifyChunks(s, classify, chunks).marks, AllStructures(chunks))
    decreases |chunks|
  {
    GrewNothing(s.marks);
    if chunks != [] && !s.rejected {
      var s1 := ClassifyOne(s, classify, chunks[0]);
      if classify(chunks[0]).Some? {
        AddClassifiedGrows(s.marks, chunks[0], classify(chunks[0]).value);
      }
      ClassesGrow(s1, classify, chunks[1..]);
      GrewTwice(s.marks, s1.marks, ClassifyChunks(s1, classify, chunks[1..]).marks, Structures(chunks[0]),
                AllStructures(chunks[1..]));
    }
  }

  lemma {:induction false} StructuresAppend(a: seq<string>, b: seq<string>)
    ensures Structures(a + b) == Structures(a) + Structures(b)
  {
    if a == [] {
      assert a + b == b;
    } else {
      assert (a + b)[1..] == a[1..] + b;
      StructuresAppend(a[1..], b);
    }
  }

  lemma {:induction false} StructuresOfChunks(chunks: seq<seq<string>>)
    ensures AllStructures(chunks) == Structures(FlatMap(Whole, chunks))
  {
    if chunks != [] {
      StructuresOfChunks(chunks[1..]);
      StructuresAppend(chunks[0], FlatMap(Whole, chunks[1..]));
    }
  }

  lemma TypeGrows(s: State, ask: Ask, classify: Classify, typ: Kind, names: seq<string>)
    requires !AskType(s, ask, classify, typ, names).rejected
    ensures Grew(s.marks, AskType(s, ask, classify, typ, names).marks, TypeAdds(ask, typ, names))
  {
    var chunks := Chunks(names, DDIC_IN_LIST_MAX_BYTES);
    var structures := ChunksStructures(ask, typ, chunks);
    var clsChunks := Chunks(structures, DDIC_IN_LIST_MAX_BYTES);
    var s1 := AskChunks(s, ask, typ, chunks);
    ChunksGrow(s, ask, typ, chunks);
    ClassesGrow(s1, classify, clsChunks);
    StructuresOfChunks(clsChunks);
    ChunksAreRight(structures, DDIC_IN_LIST_MAX_BYTES);
    GrewTwice(s.marks, s1.marks, ClassifyChunks(s1, classify, clsChunks).marks, ChunksAdds(ask, typ, chunks),
              Structures(structures));
  }

  /** Unless a 401 ends it, a level adds exactly the nodes its answers show that were not visited. */
  lemma {:induction false} LevelGrows(s: State, ask: Ask, classify: Classify, current: seq<Node>, kinds: seq<Kind>)
    requires !AskLevel(s, ask, classify, current, kinds).rejected
    ensures Grew(s.marks, AskLevel(s, ask, classify, current, kinds).marks, LevelAdds(ask, current, kinds))
    decreases |kinds|
  {
    GrewNothing(s.marks);
    if kinds != [] && !s.rejected {
      var names := NamesOf(current, kinds[0]);
      var s1 := AskType(s, ask, classify, kinds[0], names);
      TypeGrows(s, ask, classify, kinds[0], names);
      LevelGrows(s1, ask, classify, current, kinds[1..]);
      GrewTwice(s.marks, s1.marks, AskLevel(s1, ask, classify, current, kinds[1..]).marks,
                TypeAdds(ask, kinds[0], names), LevelAdds(ask, current, kinds[1..]));
    }
  }

  // ---------------------------------------------------------------------------
  // The walk and reachability
  // ---------------------------------------------------------------------------

  /** The typed nodes a node refers to in the catalog. */
  type Edges = Node -> set<Node>

  function SuccsOf(edges: Edges, typ: Kind, names: seq<string>): set<Node> {
    if names == [] then {} else edges(Node(typ, names[0])) + SuccsOf(edges, typ, names[1..])
  }

  /** Every node an answer shows, at once or after classification. */
  function Shown(typ: Kind, answer: Answer): set<Node> {
    AnswerAdds(typ, answer) + Structures(AnswerStructures(typ, answer))
  }

  /** No answer shows a node the catalog does not have; queries may fail or be cut off. */
  ghost predicate Sound(ask: Ask, edges: Edges) {
    forall typ, chunk {:trigger ask(typ, chunk)} :: Shown(typ, ask(typ, chunk)) <= SuccsOf(edges, typ, chunk)
  }

  /** Error-free, uncapped queries: every answer shows exactly what the catalog has. */
  ghost predicate Faithful(ask: Ask, classify: Classify, edges: Edges) {
    && (forall typ, chunk {:trigger ask(typ, chunk)} ::
          ask(typ, chunk).Rows? && Shown(typ, ask(typ, chunk)) == SuccsOf(edges, typ, chunk))
    && (forall chunk {:trigger classify(chunk)} :: classify(chunk).Some?)
  }

  lemma {:induction false} SuccsAppend(edges: Edges, typ: Kind, a: seq<string>, b: seq<string>)
    ensures SuccsOf(edges, typ, a + b) == SuccsOf(edges, typ, a) + SuccsOf(edges, typ, b)
  {
    if a == [] {
      assert a + b == b;
    } else {
      assert (a + b)[1..] == a[1..] + b;
      SuccsAppend(edges, typ, a[1..], b);
    }
  }

  lemma {:induction false} SuccsMember(edges: Edges, typ: Kind, names: seq<string>, b: Node)
    ensures b in SuccsOf(edges, typ, names) <==> exists i :: 0 <= i < |names| && b in edges(Node(typ, names[i]))
  {
    if names != [] {
      SuccsMember(edges, typ, names[1..], b);
      if i :| 0 <= i < |names| && b in edges(Node(typ, names[i])) {
        assert i > 0 ==> names[1..][i - 1] == names[i];
      }
    }
  }

  lemma {:induction false} ChunksShow(ask: Ask, typ: Kind, chunks: seq<seq<string>>, classify: Classify, edges: Edges)
    requires Sound(ask, edges)
    ensures var shown := ChunksAdds(ask, typ, chunks) + Structures(ChunksStructures(ask, typ, chunks));
            && shown <= SuccsOf(edges, typ, FlatMap(Whole, chunks))
            && (Faithful(ask, classify, edges) ==> shown == SuccsOf(edges, typ, FlatMap(Whole, chunks)))
  {
    if chunks != [] {
      var answer := ask(typ, chunks[0]);
      ChunksShow(ask, typ, chunks[1..], classify, edges);
      StructuresAppend(AnswerStructures(typ, answer), ChunksStructures(ask, typ, chunks[1..]));
      SuccsAppend(edges, typ, chunks[0], FlatMap(Whole, chunks[1..]));
    }
  }

  lemma TypeShows(ask: Ask, typ: Kind, names: seq<string>, classify: Classify, edges: Edges)
    requires Sound(ask, edges)
    ensures TypeAdds(ask, typ, names) <= SuccsOf(edges, typ, names)
    ensures Faithful(ask, classify, edges) ==> TypeAdds(ask, typ, names) == SuccsOf(edges, typ, names)
  {
    ChunksAreRight(names, DDIC_IN_LIST_MAX_BYTES);
    ChunksShow(ask, typ, Chunks(names, DDIC_IN_LIST_MAX_BYTES), classify, edges);
  }

  lemma {:induction false} NamesOfMember(nodes: seq<Node>, typ: Kind, name: string)
    ensures name in NamesOf(nodes, typ) <==> Node(typ, name) in nodes
  {
    if nodes != [] {
      NamesOfMember(nodes[..|nodes| - 1], typ, name);
      assert nodes == nodes[..|nodes| - 1] + [nodes[|nodes| - 1]];
    }
  }

  /** What is one edge away from some of the nodes. */
  function Beyond(edges: Edges, nodes: set<Node>): set<Node> { set a, b | a in nodes && b in edges(a) :: b }

  function NodeSet(nodes: seq<Node>): (r: set<Node>)
    ensures forall n :: n in r <==> n in nodes
  {
    set n | n in nodes :: n
  }

  lemma NodeSetAppend(a: seq<Node>, b: seq<Node>)
    ensures NodeSet(a + b) == NodeSet(a) + NodeSet(b)
  {}

  lemma SuccsOfNames(edges: Edges, nodes: seq<Node>, typ: Kind, b: Node)
    ensures b in SuccsOf(edges, typ, NamesOf(nodes, typ)) <==> IsNearKind(nodes, typ, edges, b)
  {
    var names := NamesOf(nodes, typ);
    SuccsMember(edges, typ, names, b);
    if i :| 0 <= i < |names| && b in edges(Node(typ, names[i])) {
      NamesOfMember(nodes, typ, names[i]);
      assert Node(typ, names[i]) in nodes;
    }
    if n :| n in nodes && n.typ == typ && b in edges(n) {
      NamesOfMember(nodes, typ, n.name);
      var i :| 0 <= i < |names| && names[i] == n.name;
      assert Node(typ, names[i]) == n;
    }
  }

  /** b is one edge away from some node of these kinds. */
  ghost predicate IsNear(nodes: seq<Node>, kinds: seq<Kind>, edges: Edges, b: Node) {
    exists n :: n in nodes && n.typ in kinds && b in edges(n)
  }

  ghost predicate IsNearKind(nodes: seq<Node>, kind: Kind, edges: Edges, b: Node) {
    exists n :: n in nodes && n.typ == kind && b in edges(n)
  }

  lemma NearCons(nodes: seq<Node>, kinds: seq<Kind>, edges: Edges, b: Node)
    requires kinds != []
    ensures IsNear(nodes, kinds, edges, b)
            <==> IsNearKind(nodes, kinds[0], edges, b) || IsNear(nodes, kinds[1..], edges, b)
  {
    assert forall kind | kind in kinds :: kind == kinds[0] || kind in kinds[1..];
  }

  lemma {:induction false} LevelShows(ask: Ask, nodes: seq<Node>, kinds: seq<Kind>, classify: Classify, edges: Edges,
                                      b: Node)
    requires Sound(ask, edges)
    ensures b in LevelAdds(ask, nodes, kinds) ==> IsNear(nodes, kinds, edges, b)
    ensures Faithful(ask, classify, edges) && IsNear(nodes, kinds, edges, b) ==> b in LevelAdds(ask, nodes, kinds)
  {
    if kinds != [] {
      TypeShows(ask, kinds[0], NamesOf(nodes, kinds[0]), classify, edges);
      SuccsOfNames(edges, nodes, kinds[0], b);
      LevelShows(ask, nodes, kinds[1..], classify, edges, b);
      NearCons(nodes, kinds, edges, b);
    }
  }

  lemma LevelIsBeyond(ask: Ask, nodes: seq<Node>, kinds: seq<Kind>, classify: Classify, edges: Edges)
    requires Sound(ask, edges) && CoversAll(kinds)
    ensures LevelAdds(ask, nodes, kinds) <= Beyond(edges, NodeSet(nodes))
    ensures Faithful(ask, classify, edges) ==> LevelAdds(ask, nodes, kinds) == Beyond(edges, NodeSet(nodes))
  {
    forall b ensures b in LevelAdds(ask, nodes, kinds) ==> b in Beyond(edges, NodeSet(nodes))
      ensures Faithful(ask, classify, edges) && b in Beyond(edges, NodeSet(nodes)) ==> b in LevelAdds(ask, nodes, kinds)
    {
      LevelShows(ask, nodes, kinds, classify, edges, b);
      if b in Beyond(edges, NodeSet(nodes)) {
        var n :| n in NodeSet(nodes) && b in edges(n);
      }
    }
  }

  predicate CoversAll(kinds: seq<Kind>) { forall kind: Kind :: kind in kinds }

  lemma KindsCoverAll()
    ensures CoversAll(KINDS)
  {
    assert KINDS[0] == TABL && KINDS[1] == DTEL && KINDS[2] == DOMA && KINDS[3] == TTYP;
    forall kind: Kind ensures kind in KINDS {
      assert kind == TABL || kind == DTEL || kind == DOMA || kind == TTYP;
    }
  }

  /** The nodes at most k edges from start. */
  function Within(edges: Edges, start: Node, k: nat): set<Node> {
    if k == 0 then {start} else Around(edges, Within(edges, start, k - 1))
  }

  /** nodes, and what is one edge away. */
  function Around(edges: Edges, nodes: set<Node>): set<Node> { nodes + Beyond(edges, nodes) }

  predicate IsPath(edges: Edges, path: seq<Node>) {
    path != [] && forall i {:trigger path[i]} | 0 < i < |path| :: path[i] in edges(path[i - 1])
  }

  ghost predicate HasPath(edges: Edges, start: Node, n: Node, k: nat) {
    exists path :: IsPath(edges, path) && path[0] == start && path[|path| - 1] == n && |path| <= k + 1
  }

  /** That is, those a path of at most k edges leads to. */
  lemma {:induction false} WithinMeansPath(edges: Edges, start: Node, n: Node, k: nat)
    ensures n in Within(edges, start, k) <==> HasPath(edges, start, n, k)
  {
    if n in Within(edges, start, k) {
      PathTo(edges, start, n, k);
    }
    if path :| IsPath(edges, path) && path[0] == start && path[|path| - 1] == n && |path| <= k + 1 {
      PathStaysWithin(edges, start, path, k);
    }
  }

  lemma {:induction false} PathTo(edges: Edges, start: Node, n: Node, k: nat)
    requires n in Within(edges, start, k)
    ensures HasPath(edges, start, n, k)
    decreases k
  {
    if k == 0 {
      assert IsPath(edges, [start]);
    } else if n in Within(edges, start, k - 1) {
      PathTo(edges, start, n, k - 1);
      var path :| IsPath(edges, path) && path[0] == start && path[|path| - 1] == n && |path| <= k;
      assert |path| <= k + 1;
    } else {
      var a :| a in Within(edges, start, k - 1) && n in edges(a);
      PathTo(edges, start, a, k - 1);
      var path :| IsPath(edges, path) && path[0] == start && path[|path| - 1] == a && |path| <= k;
      assert IsPath(edges, path + [n]);
    }
  }

  lemma {:induction false} PathStaysWithin(edges: Edges, start: Node, path: seq<Node>, k: nat)
    requires IsPath(edges, path) && path[0] == start && |path| <= k + 1
    ensures path[|path| - 1] in Within(edges, start, k)
    decreases k
  {
    var m := |path| - 1;
    if m == 0 {
      WithinGrows(edges, start, 0, k);
    } else {
      PathStaysWithin(edges, start, path[..m], k - 1);
      assert path[m] in edges(path[m - 1]) && path[..m][m - 1] == path[m - 1];
    }
  }

  lemma {:induction false} WithinGrows(edges: Edges, start: Node, k: nat, l: nat)
    requires k <= l
    ensures Within(edges, start, k) <= Within(edges, start, l)
    decreases l
  {
    if k < l {
      WithinGrows(edges, start, k, l - 1);
    }
  }

  /** The nodes k edges away and no fewer. */
  function Frontier(edges: Edges, start: Node, k: nat): set<Node> {
    if k == 0 then {start} else Within(edges, start, k) - Within(edges, start, k - 1)
  }

  lemma FrontierLeads(edges: Edges, start: Node, k: nat)
    ensures Within(edges, start, k) + Beyond(edges, Frontier(edges, start, k)) == Within(edges, start, k + 1)
  {
    if k > 0 {
      var inner, all := Within(edges, start, k - 1), Within(edges, start, k);
      forall b | b in Beyond(edges, all) ensures b in all + Beyond(edges, Frontier(edges, start, k)) {
        var a :| a in all && b in edges(a);
        assert a in inner ==> b in Beyond(edges, inner);
      }
    }
  }

  /** Once a level adds nothing, none does. */
  lemma NothingBeyond(edges: Edges, start: Node, k: nat, l: nat)
    requires Frontier(edges, start, k) == {} && k <= l
    ensures Within(edges, start, l) == Within(edges, start, k)
  {
    var level, step := (i: nat) => Within(edges, start, i), (ns: set<Node>) => Around(edges, ns);
    ClosedAt(edges, start, k);
    forall i: nat ensures StepsAt(level, step, i) {}
    FixedPointStays(level, step, k, l);
  }

  predicate StepsAt<T(==)>(level: nat -> T, step: T -> T, i: nat) { level(i + 1) == step(level(i)) }

  lemma {:induction false} FixedPointStays<T>(level: nat -> T, step: T -> T, k: nat, l: nat)
    requires forall i: nat :: StepsAt(level, step, i)
    requires step(level(k)) == level(k) && k <= l
    ensures level(l) == level(k)
    decreases l
  {
    if k < l {
      FixedPointStays(level, step, k, l - 1);
      assert StepsAt(level, step, l - 1);
    }
  }

  lemma ClosedAt(edges: Edges, start: Node, k: nat)
    requires Frontier(edges, start, k) == {}
    ensures Around(edges, Within(edges, start, k)) == Within(edges, start, k)
  {
    FrontierLeads(edges, start, k);
    assert Beyond(edges, {}) == {};
    assert Within(edges, start, k + 1) == Around(edges, Within(edges, start, k));
  }

  function Nodes(ds: seq<Dep>): (ns: seq<Node>)
    ensures |ns| == |ds| && forall i | 0 <= i < |ds| :: ns[i] == ds[i].node
  {
    seq(|ds|, i requires 0 <= i < |ds| => ds[i].node)
  }

  lemma NodesOfSlices(a: seq<Dep>, b: seq<Dep>, c: seq<Dep>)
    requires a <= b <= c
    ensures a <= c && Nodes(c[|a|..]) == Nodes(b[|a|..]) + Nodes(c[|b|..])
  {}

  /** ns lists exactly the nodes more than k and at most l edges away, each once, nearest first. */
  ghost predicate Lists(ns: seq<Node>, edges: Edges, start: Node, k: nat, l: nat) {
    && NodeSet(ns) == Within(edges, start, l) - Within(edges, start, k)
    && (forall i, j {:trigger ns[i], ns[j]} | 0 <= i < j < |ns| ::
          ns[i] != ns[j] && NoFarther(edges, start, ns[i], ns[j]))
  }

  /** a is at most as far from start as b. */
  ghost predicate NoFarther(edges: Edges, start: Node, a: Node, b: Node) {
    forall k: nat {:trigger Within(edges, start, k)} :: b in Within(edges, start, k) ==> a in Within(edges, start, k)
  }

  lemma InnerNoFarther(edges: Edges, start: Node, a: Node, b: Node, k: nat)
    requires a in Within(edges, start, k + 1) && b !in Within(edges, start, k)
    ensures NoFarther(edges, start, a, b)
  {
    forall l: nat | b in Within(edges, start, l) ensures a in Within(edges, start, l) {
      if l <= k {
        WithinGrows(edges, start, l, k);
      } else {
        WithinGrows(edges, start, k + 1, l);
      }
    }
  }

  lemma ListsAppend(a: seq<Node>, b: seq<Node>, edges: Edges, start: Node, k: nat, l: nat)
    requires Lists(a, edges, start, k, k + 1) && Lists(b, edges, start, k + 1, l) && k + 1 <= l
    ensures Lists(a + b, edges, start, k, l)
  {
    var ns := a + b;
    WithinGrows(edges, start, k, k + 1);
    WithinGrows(edges, start, k + 1, l);
    NodeSetAppend(a, b);
    forall i, j {:trigger ns[i], ns[j]} | 0 <= i < j < |ns|
      ensures ns[i] != ns[j] && NoFarther(edges, start, ns[i], ns[j])
    {
      if i < |a| <= j {
        assert ns[i] == a[i] && ns[j] == b[j - |a|];
        assert a[i] in NodeSet(a) && b[j - |a|] in NodeSet(b);
        InnerNoFarther(edges, start, ns[i], ns[j], k);
      } else if j < |a| {
        assert ns[i] == a[i] && ns[j] == a[j];
      } else {
        assert ns[i] == b[i - |a|] && ns[j] == b[j - |a|];
      }
    }
  }

  /** After a level that leads from the nodes k edges away to those k + 1 edges away. */
  ghost predicate LevelLists(s: State, s': State, edges: Edges, start: Node, k: nat) {
    && !s'.rejected && s'.marks.visited == Keys(Within(edges, start, k + 1))
    && Lists(s'.marks.next, edges, start, k, k + 1)
    && s.marks.deps <= s'.marks.deps && Nodes(s'.marks.deps[|s.marks.deps|..]) == s'.marks.next
  }

  ghost predicate AtFrontier(s: State, current: seq<Node>, edges: Edges, start: Node, k: nat) {
    !s.rejected && s.marks.visited == Keys(Within(edges, start, k)) && NodeSet(current) == Frontier(edges, start, k)
  }

  /** Every level lists the next nodes. */
  ghost predicate AlwaysLists(level: LevelFn, edges: Edges, start: Node) {
    forall s, current, k: nat {:trigger AtFrontier(s, current, edges, start, k)} |
      AtFrontier(s, current, edges, start, k) :: LevelLists(s, level(s, current), edges, start, k)
  }

  lemma FaithfulLists(s: State, ask: Ask, classify: Classify, kinds: seq<Kind>, edges: Edges, start: Node,
                      current: seq<Node>, k: nat)
    requires Faithful(ask, classify, edges) && CoversAll(kinds) && AtFrontier(s, current, edges, start, k)
    ensures LevelLists(s, Level(ask, classify, kinds)(s, current), edges, start, k)
  {
    var s0 := s.(marks := s.marks.(next := []));
    var s' := Level(ask, classify, kinds)(s, current);
    var adds := LevelAdds(ask, current, kinds);
    LevelNotRejected(s0, ask, classify, edges, current, kinds);
    LevelGrows(s0, ask, classify, current, kinds);
    LevelIsBeyond(ask, current, kinds, classify, edges);
    GrewLists(s0.marks, s'.marks, adds, edges, start, k);
  }

  lemma GrewLists(m: Marks, m': Marks, adds: set<Node>, edges: Edges, start: Node, k: nat)
    requires Grew(m, m', adds) && m.next == [] && m.visited == Keys(Within(edges, start, k))
    requires adds == Beyond(edges, Frontier(edges, start, k))
    ensures m'.visited == Keys(Within(edges, start, k + 1)) && Lists(m'.next, edges, start, k, k + 1)
    ensures m.deps <= m'.deps && Nodes(m'.deps[|m.deps|..]) == m'.next
  {
    FrontierLeads(edges, start, k);
    GrewNodes(m, m', adds, Within(edges, start, k), Within(edges, start, k + 1));
    GrewInStep(m, m', adds);
    OneLevelLists(m'.next, edges, start, k);
  }

  lemma GrewNodes(m: Marks, m': Marks, adds: set<Node>, inner: set<Node>, all: set<Node>)
    requires Grew(m, m', adds) && m.next == [] && m.visited == Keys(inner) && all == inner + adds
    ensures m'.visited == Keys(all) && NodeSet(m'.next) == all - inner
  {
    KeysUnion(inner, adds);
    NewNodesAre(m, m', adds, inner);
  }

  lemma GrewInStep(m: Marks, m': Marks, adds: set<Node>)
    requires Grew(m, m', adds) && m.next == []
    ensures m.deps <= m'.deps && Nodes(m'.deps[|m.deps|..]) == m'.next && Distinct(m'.next)
  {}

  /** Nodes of one level are equally far. */
  lemma OneLevelLists(next: seq<Node>, edges: Edges, start: Node, k: nat)
    requires NodeSet(next) == Within(edges, start, k + 1) - Within(edges, start, k) && Distinct(next)
    ensures Lists(next, edges, start, k, k + 1)
  {
    forall i, j {:trigger next[i], next[j]} | 0 <= i < j < |next|
      ensures next[i] != next[j] && NoFarther(edges, start, next[i], next[j])
    {
      assert next[i] in NodeSet(next) && next[j] in NodeSet(next);
      InnerNoFarther(edges, start, next[i], next[j], k);
    }
  }

  lemma NewNodesAre(m: Marks, m': Marks, adds: set<Node>, inner: set<Node>)
    requires Grew(m, m', adds) && m.next == [] && m.visited == Keys(inner)
    ensures NodeSet(m'.next) == adds - inner
  {
    var next := m'.next;
    assert next[0..] == next;
    forall n ensures n in NodeSet(next) <==> n in adds - inner {
      KeysMember(inner, n);
      if n in NodeSet(next) {
        var i :| 0 <= i < |next| && next[i] == n;
        assert IsNew(m, adds, next[i]);
      }
      if n in adds - inner {
        assert IsNew(m, adds, n);
      }
    }
  }

  lemma {:induction false} ChunksNotRejected(s: State, ask: Ask, classify: Classify, edges: Edges, typ: Kind,
                                             chunks: seq<seq<string>>)
    requires Faithful(ask, classify, edges) && !s.rejected
    ensures !AskChunks(s, ask, typ, chunks).rejected
    decreases |chunks|
  {
    if chunks != [] {
      assert ask(typ, chunks[0]).Rows?;
      ChunksNotRejected(Answered(s, typ, ask(typ, chunks[0])), ask, classify, edges, typ, chunks[1..]);
    }
  }

  lemma {:induction false} ClassesNotRejected(s: State, ask: Ask, classify: Classify, edges: Edges,
                                              chunks: seq<seq<string>>)
    requires Faithful(ask, classify, edges) && !s.rejected
    ensures !ClassifyChunks(s, classify, chunks).rejected
    decreases |chunks|
  {
    if chunks != [] {
      ClassesNotRejected(ClassifyOne(s, classify, chunks[0]), ask, classify, edges, chunks[1..]);
    }
  }

  lemma {:induction false} LevelNotRejected(s: State, ask: Ask, classify: Classify, edges: Edges, current: seq<Node>,
                                            kinds: seq<Kind>)
    requires Faithful(ask, classify, edges) && !s.rejected
    ensures !AskLevel(s, ask, classify, current, kinds).rejected
    decreases |kinds|
  {
    if kinds != [] {
      var names := NamesOf(current, kinds[0]);
      var chunks := Chunks(names, DDIC_IN_LIST_MAX_BYTES);
      ChunksNotRejected(s, ask, classify, edges, kinds[0], chunks);
      ClassesNotRejected(AskChunks(s, ask, kinds[0], chunks), ask, classify, edges,
                         Chunks(ChunksStructures(ask, kinds[0], chunks), DDIC_IN_LIST_MAX_BYTES));
      LevelNotRejected(AskType(s, ask, classify, kinds[0], names), ask, classify, edges, current, kinds[1..]);
    }
  }

  /** s' continues s with exactly the nodes more than k and at most l edges away. */
  ghost predicate ListsOn(s: State, s': State, edges: Edges, start: Node, k: nat, l: nat) {
    && !s'.rejected && s.marks.deps <= s'.marks.deps
    && Lists(Nodes(s'.marks.deps[|s.marks.deps|..]), edges, start, k, l)
  }

  lemma ListsThen(s: State, s1: State, s2: State, edges: Edges, start: Node, k: nat, l: nat)
    requires LevelLists(s, s1, edges, start, k) && ListsOn(s1, s2, edges, start, k + 1, l) && k + 1 <= l
    ensures ListsOn(s, s2, edges, start, k, l)
  {
    ListsOfSlices(s.marks.deps, s1.marks.deps, s2.marks.deps, edges, start, k, l);
  }

  lemma {:induction false} WalkLists(level: LevelFn, s: State, edges: Edges, start: Node, current: seq<Node>, k: nat,
                                     depth: nat)
    requires AlwaysLists(level, edges, start) && AtFrontier(s, current, edges, start, k)
    ensures ListsOn(s, WalkFrom(level, s, current, depth), edges, start, k, k + depth)
    decreases depth
  {
    if depth == 0 || current == [] {
      ListsNothing(s.marks.deps, edges, start, current, k, k + depth);
    } else {
      var s1 := level(s, current);
      NextIsFrontier(s, s1, edges, start, k);
      WalkLists(level, s1, edges, start, s1.marks.next, k + 1, depth - 1);
      ListsThen(s, s1, WalkFrom(level, s1, s1.marks.next, depth - 1), edges, start, k, k + depth);
    }
  }

  lemma ListsNothing(deps: seq<Dep>, edges: Edges, start: Node, current: seq<Node>, k: nat, l: nat)
    requires NodeSet(current) == Frontier(edges, start, k) && k <= l && (k == l || current == [])
    ensures Lists(Nodes(deps[|deps|..]), edges, start, k, l)
  {
    if current == [] {
      assert NodeSet(current) == {};
      NothingBeyond(edges, start, k, l);
    }
  }

  lemma NextIsFrontier(s: State, s1: State, edges: Edges, start: Node, k: nat)
    requires LevelLists(s, s1, edges, start, k)
    ensures AtFrontier(s1, s1.marks.next, edges, start, k + 1)
  {}

  lemma ListsOfSlices(a: seq<Dep>, b: seq<Dep>, c: seq<Dep>, edges: Edges, start: Node, k: nat, l: nat)
    requires a <= b <= c && k + 1 <= l
    requires Lists(Nodes(b[|a|..]), edges, start, k, k + 1) && Lists(Nodes(c[|b|..]), edges, start, k + 1, l)
    ensures a <= c && Lists(Nodes(c[|a|..]), edges, start, k, l)
  {
    NodesOfSlices(a, b, c);
    ListsAppend(Nodes(b[|a|..]), Nodes(c[|b|..]), edges, start, k, l);
  }

  lemma WalkListsFromStart(level: LevelFn, edges: Edges, start: Node, maxDepth: nat)
    requires AlwaysLists(level, edges, start)
    ensures var s := WalkFrom(level, Start(start), [start], maxDepth);
            !s.rejected && Lists(Nodes(s.marks.deps), edges, start, 0, maxDepth)
  {
    assert NodeSet([start]) == {start} && Keys({start}) == {Key(start)};
    WalkLists(level, Start(start), edges, start, [start], 0, maxDepth);
    var s := WalkFrom(level, Start(start), [start], maxDepth);
    assert s.marks.deps[0..] == s.marks.deps;
  }

  /** The main result. On error-free, uncapped answers the walk gives exactly the typed nodes that
      paths of 1 to maxDepth edges lead to, without the start, each once, nearest first; whatever
      cycles there are. */
  lemma WalkIsReachability(ask: Ask, classify: Classify, edges: Edges, start: Node, maxDepth: nat)
    requires Faithful(ask, classify, edges)
    ensures var r := WalkResult(start, maxDepth, ask, classify);
            r.Walked? && Lists(Nodes(r.deps), edges, start, 0, maxDepth)
  {
    KindsCoverAll();
    forall s, current, k: nat | AtFrontier(s, current, edges, start, k)
      ensures LevelLists(s, Level(ask, classify, KINDS)(s, current), edges, start, k)
    {
      FaithfulLists(s, ask, classify, KINDS, edges, start, current, k);
    }
    WalkListsFromStart(Level(ask, classify, KINDS), edges, start, maxDepth);
  }

  /** Every level only appends to the dependencies. */
  ghost predicate AlwaysAppends(level: LevelFn) {
    forall s, current {:trigger level(s, current)} | !level(s, current).rejected ::
      s.marks.deps <= level(s, current).marks.deps
  }

  lemma LevelAppends(ask: Ask, classify: Classify, kinds: seq<Kind>)
    ensures AlwaysAppends(Level(ask, classify, kinds))
  {
    var level := Level(ask, classify, kinds);
    forall s, current {:trigger level(s, current)} | !level(s, current).rejected
      ensures s.marks.deps <= level(s, current).marks.deps
    {
      LevelGrows(s.(marks := s.marks.(next := [])), ask, classify, current, kinds);
    }
  }

  lemma {:induction false} WalkAppends(level: LevelFn, s: State, current: seq<Node>, depth: nat)
    requires AlwaysAppends(level) && !WalkFrom(level, s, current, depth).rejected
    ensures !s.rejected && s.marks.deps <= WalkFrom(level, s, current, depth).marks.deps
    decreases depth
  {
    if depth > 0 && current != [] && !s.rejected {
      var s1 := level(s, current);
      WalkAppends(level, s1, s1.marks.next, depth - 1);
    }
  }

  /** Whatever the answers: a deeper walk that succeeds begins with the shallower one. */
  lemma {:induction false} DeeperExtends(level: LevelFn, s: State, current: seq<Node>, depth: nat)
    requires AlwaysAppends(level) && !WalkFrom(level, s, current, depth + 1).rejected
    ensures var less, more := WalkFrom(level, s, current, depth), WalkFrom(level, s, current, depth + 1);
            !less.rejected && less.marks.deps <= more.marks.deps
    decreases depth
  {
    if depth == 0 {
      WalkAppends(level, s, current, 1);
    } else if current != [] && !s.rejected {
      var s1 := level(s, current);
      DeeperExtends(level, s1, s1.marks.next, depth - 1);
    }
  }

  lemma DepthIsPrefix(ask: Ask, classify: Classify, start: Node, depth: nat)
    requires WalkResult(start, depth + 1, ask, classify).Walked?
    ensures WalkResult(start, depth, ask, classify).Walked?
    ensures WalkResult(start, depth, ask, classify).deps <= WalkResult(start, depth + 1, ask, classify).deps
  {
    LevelAppends(ask, classify, KINDS);
    DeeperExtends(Level(ask, classify, KINDS), Start(start), [start], depth);
  }

  // ---------------------------------------------------------------------------
  // Failing and capped queries
  // ---------------------------------------------------------------------------

  ghost predicate Distinct(ns: seq<Node>) { forall i, j {:trigger ns[i], ns[j]} | 0 <= i < j < |ns| :: ns[i] != ns[j] }

  /** ns are nodes at most l edges away that are not among seen, each once. */
  ghost predicate Reached(ns: seq<Node>, edges: Edges, start: Node, seen: set<string>, l: nat) {
    Distinct(ns) && forall i {:trigger ns[i]} | 0 <= i < |ns| :: ns[i] in Within(edges, start, l) && Key(ns[i]) !in seen
  }

  /** s' continues s with nodes at most l edges away. */
  ghost predicate ReachesOn(s: State, s': State, edges: Edges, start: Node, l: nat) {
    && s.marks.deps <= s'.marks.deps && s.marks.visited <= s'.marks.visited
    && Reached(Nodes(s'.marks.deps[|s.marks.deps|..]), edges, start, s.marks.visited, l)
  }

  /** After a level that went no farther than k + 1 edges. */
  ghost predicate LevelReaches(s: State, s': State, edges: Edges, start: Node, k: nat) {
    && s.marks.deps <= s'.marks.deps && s.marks.visited <= s'.marks.visited
    && Nodes(s'.marks.deps[|s.marks.deps|..]) == s'.marks.next
    && NodeSet(s'.marks.next) <= Within(edges, start, k + 1)
    && Reached(s'.marks.next, edges, start, s.marks.visited, k + 1)
    && forall i {:trigger s'.marks.next[i]} | 0 <= i < |s'.marks.next| :: Key(s'.marks.next[i]) in s'.marks.visited
  }

  ghost predicate IsWithin(current: seq<Node>, edges: Edges, start: Node, k: nat) {
    NodeSet(current) <= Within(edges, start, k)
  }

  ghost predicate AlwaysReaches(level: LevelFn, edges: Edges, start: Node) {
    forall s, current, k: nat {:trigger CanReach(level, s, current, edges, start, k)} |
      CanReach(level, s, current, edges, start, k) :: LevelReaches(s, level(s, current), edges, start, k)
  }

  ghost predicate CanReach(level: LevelFn, s: State, current: seq<Node>, edges: Edges, start: Node, k: nat) {
    IsWithin(current, edges, start, k) && !level(s, current).rejected
  }

  /** One level, then a walk that goes on from what it found. */
  lemma ReachesThen(level: LevelFn, s: State, current: seq<Node>, s2: State, edges: Edges, start: Node, k: nat, l: nat)
    requires AlwaysReaches(level, edges, start) && IsWithin(current, edges, start, k) && !level(s, current).rejected
    requires ReachesOn(level(s, current), s2, edges, start, l) && k + 1 <= l
    ensures ReachesOn(s, s2, edges, start, l)
  {
    var s1 := level(s, current);
    assert CanReach(level, s, current, edges, start, k);
    WithinGrows(edges, start, k + 1, l);
    ReachedOfSlices(s.marks.deps, s1.marks, s2.marks.deps, edges, start, s.marks.visited, k + 1, l);
  }

  lemma NextIsWithin(level: LevelFn, s: State, current: seq<Node>, edges: Edges, start: Node, k: nat)
    requires AlwaysReaches(level, edges, start) && IsWithin(current, edges, start, k) && !level(s, current).rejected
    ensures IsWithin(level(s, current).marks.next, edges, start, k + 1)
  {
    assert CanReach(level, s, current, edges, start, k);
  }

  lemma {:induction false} WalkReaches(level: LevelFn, s: State, edges: Edges, start: Node, current: seq<Node>, k: nat,
                                       depth: nat)
    requires AlwaysReaches(level, edges, start) && IsWithin(current, edges, start, k)
    ensures var s' := WalkFrom(level, s, current, depth); s'.rejected || ReachesOn(s, s', edges, start, k + depth)
    decreases depth
  {
    if depth == 0 || current == [] || s.rejected {
      ReachesNothing(s, edges, start, k + depth);
    } else {
      var s1 := level(s, current);
      var s' := WalkFrom(level, s1, s1.marks.next, depth - 1);
      if !s1.rejected {
        NextIsWithin(level, s, current, edges, start, k);
        WalkReaches(level, s1, edges, start, s1.marks.next, k + 1, depth - 1);
        if !s'.rejected {
          ReachesThen(level, s, current, s', edges, start, k, k + depth);
        }
      }
    }
  }

  lemma ReachesNothing(s: State, edges: Edges, start: Node, l: nat)
    ensures ReachesOn(s, s, edges, start, l)
  {}

  lemma ReachedOfSlices(a: seq<Dep>, m: Marks, c: seq<Dep>, edges: Edges, start: Node, seen: set<string>, k: nat,
                        l: nat)
    requires a <= m.deps <= c && Nodes(m.deps[|a|..]) == m.next
    requires Reached(m.next, edges, start, seen, k) && Reached(Nodes(c[|m.deps|..]), edges, start, m.visited, l)
    requires seen <= m.visited && Within(edges, start, k) <= Within(edges, start, l)
    requires forall i {:trigger m.next[i]} | 0 <= i < |m.next| :: Key(m.next[i]) in m.visited
    ensures a <= c && Reached(Nodes(c[|a|..]), edges, start, seen, l)
  {
    NodesOfSlices(a, m.deps, c);
    ReachedAppend(m.next, Nodes(c[|m.deps|..]), edges, start, seen, m.visited, k, l);
  }

  lemma ReachedAppend(a: seq<Node>, b: seq<Node>, edges: Edges, start: Node, seen: set<string>, seen': set<string>,
                      k: nat, l: nat)
    requires Reached(a, edges, start, seen, k) && Reached(b, edges, start, seen', l)
    requires seen <= seen' && Within(edges, start, k) <= Within(edges, start, l)
    requires forall i {:trigger a[i]} | 0 <= i < |a| :: Key(a[i]) in seen'
    ensures Reached(a + b, edges, start, seen, l)
  {
    var ns := a + b;
    forall i, j {:trigger ns[i], ns[j]} | 0 <= i < j < |ns| ensures ns[i] != ns[j] {
      if i < |a| {
        assert ns[i] == a[i];
      }
      if j >= |a| {
        assert ns[j] == b[j - |a|];
      }
    }
  }

  lemma SoundReaches(s: State, ask: Ask, classify: Classify, kinds: seq<Kind>, edges: Edges, start: Node,
                     current: seq<Node>, k: nat)
    requires Sound(ask, edges) && CoversAll(kinds) && IsWithin(current, edges, start, k)
    requires !Level(ask, classify, kinds)(s, current).rejected
    ensures LevelReaches(s, Level(ask, classify, kinds)(s, current), edges, start, k)
  {
    var s0 := s.(marks := s.marks.(next := []));
    LevelGrows(s0, ask, classify, current, kinds);
    LevelIsBeyond(ask, current, kinds, classify, edges);
    GrewReaches(s0.marks, Level(ask, classify, kinds)(s, current).marks, LevelAdds(ask, current, kinds), edges, start,
                current, k);
  }

  lemma GrewReaches(m: Marks, m': Marks, adds: set<Node>, edges: Edges, start: Node, current: seq<Node>, k: nat)
    requires Grew(m, m', adds) && m.next == [] && IsWithin(current, edges, start, k)
    requires adds <= Beyond(edges, NodeSet(current))
    ensures m.deps <= m'.deps && m.visited <= m'.visited && Nodes(m'.deps[|m.deps|..]) == m'.next
    ensures NodeSet(m'.next) <= Within(edges, start, k + 1) && Reached(m'.next, edges, start, m.visited, k + 1)
    ensures forall i {:trigger m'.next[i]} | 0 <= i < |m'.next| :: Key(m'.next[i]) in m'.visited
  {
    forall i | 0 <= i < |m'.next| ensures m'.next[i] in Within(edges, start, k + 1) && Key(m'.next[i]) in m'.visited {
      assert IsNew(m, adds, m'.next[i]);
    }
  }

  lemma WalkReachesFromStart(level: LevelFn, edges: Edges, start: Node, maxDepth: nat)
    requires AlwaysReaches(level, edges, start) && !WalkFrom(level, Start(start), [start], maxDepth).rejected
    ensures var ns := Nodes(WalkFrom(level, Start(start), [start], maxDepth).marks.deps);
            Distinct(ns) && start !in ns && NodeSet(ns) <= Within(edges, start, maxDepth)
  {
    WalkReaches(level, Start(start), edges, start, [start], 0, maxDepth);
    var deps := WalkFrom(level, Start(start), [start], maxDepth).marks.deps;
    assert deps[0..] == deps;
  }

  /** When queries fail or are cut off, what the walk gives is still reachable within maxDepth edges,
      each node once and without the start. */
  lemma WalkIsSound(ask: Ask, classify: Classify, edges: Edges, start: Node, maxDepth: nat)
    requires Sound(ask, edges) && WalkResult(start, maxDepth, ask, classify).Walked?
    ensures var ns := Nodes(WalkResult(start, maxDepth, ask, classify).deps);
            Distinct(ns) && start !in ns && NodeSet(ns) <= Within(edges, start, maxDepth)
  {
    KindsCoverAll();
    var level := Level(ask, classify, KINDS);
    forall s, current, k: nat | CanReach(level, s, current, edges, start, k)
      ensures LevelReaches(s, level(s, current), edges, start, k)
    {
      SoundReaches(s, ask, classify, KINDS, edges, start, current, k);
    }
    WalkReachesFromStart(level, edges, start, maxDepth);
  }

  // ---------------------------------------------------------------------------
  // Use types, warnings and 401s, whatever the answers
  // ---------------------------------------------------------------------------

  /** The dependencies one row names, in order, before the visited ones are left out. */
  function RowDeps(typ: Kind, row: seq<string>): seq<Dep> {
    match typ
    case TABL => if |row| < 2 then [] else [Dep(Node(DTEL, row[0]), DATA_ELEMENT), Dep(Node(TABL, row[1]), TABLE)]
    case DTEL => if |row| < 1 then [] else [Dep(Node(DOMA, row[0]), DOMAIN)]
    case DOMA => if |row| < 1 then [] else [Dep(Node(TABL, row[0]), TABLE)]
    case TTYP => if IsRowKind(row, "E") then [Dep(Node(DTEL, row[0]), DATA_ELEMENT)] else []
  }

  function AnswerDeps(typ: Kind, answer: Answer): seq<Dep> {
    if answer.Rows? then FlatMap((row: seq<string>) => RowDeps(typ, row), answer.rows) else []
  }

  function ChunksDeps(ask: Ask, typ: Kind, chunks: seq<seq<string>>): seq<Dep> {
    if chunks == [] then [] else AnswerDeps(typ, ask(typ, chunks[0])) + ChunksDeps(ask, typ, chunks[1..])
  }

  /** The row types of one chunk, each with the use type its classification gives. */
  function ClassDeps(names: seq<string>, classes: map<string, UseType>): seq<Dep> {
    if names == [] then []
    else [Dep(Node(TABL, names[0]), UseTypeOf(classes, names[0]))] + ClassDeps(names[1..], classes)
  }

  function AllClassDeps(classify: Classify, chunks: seq<seq<string>>): seq<Dep> {
    if chunks == [] then []
    else (if classify(chunks[0]).Some? then ClassDeps(chunks[0], classify(chunks[0]).value) else [])
         + AllClassDeps(classify, chunks[1..])
  }

  function TypeDeps(ask: Ask, classify: Classify, typ: Kind, names: seq<string>): seq<Dep> {
    var chunks := Chunks(names, DDIC_IN_LIST_MAX_BYTES);
    ChunksDeps(ask, typ, chunks)
    + AllClassDeps(classify, Chunks(ChunksStructures(ask, typ, chunks), DDIC_IN_LIST_MAX_BYTES))
  }

  /** Everything the answers of one level name, in the order in which they are read. */
  function LevelDeps(ask: Ask, classify: Classify, current: seq<Node>, kinds: seq<Kind>): seq<Dep> {
    if kinds == [] then []
    else TypeDeps(ask, classify, kinds[0], NamesOf(current, kinds[0])) + LevelDeps(ask, classify, current, kinds[1..])
  }

  function AddAll(m: Marks, ds: seq<Dep>): Marks
    decreases |ds|
  {
    if ds == [] then m else AddAll(AddOne(m, ds[0]), ds[1..])
  }

  lemma {:induction false} AddAllAppend(m: Marks, a: seq<Dep>, b: seq<Dep>)
    ensures AddAll(m, a + b) == AddAll(AddAll(m, a), b)
    decreases |a|
  {
    if a == [] {
      assert a + b == b;
    } else {
      assert (a + b)[0] == a[0] && (a + b)[1..] == a[1..] + b;
      AddAllAppend(AddOne(m, a[0]), a[1..], b);
    }
  }

  lemma {:induction false} AddTwo(m: Marks, d: Dep, e: Dep)
    ensures AddAll(m, [d, e]) == AddOne(AddOne(m, d), e)
  {
    assert [d, e][1..] == [e] && [e][1..] == [];
    assert AddAll(AddOne(m, d), [e]) == AddOne(AddOne(m, d), e);
  }

  lemma {:induction false} RowIsAdded(m: Marks, typ: Kind, row: seq<string>)
    ensures AddRow(m, typ, row) == AddAll(m, RowDeps(typ, row))
  {
    match typ
    case TABL =>
      if |row| >= 2 {
        AddTwo(m, Dep(Node(DTEL, row[0]), DATA_ELEMENT), Dep(Node(TABL, row[1]), TABLE));
      }
    case DTEL => if |row| >= 1 { assert RowDeps(typ, row)[1..] == []; }
    case DOMA => if |row| >= 1 { assert RowDeps(typ, row)[1..] == []; }
    case TTYP => if IsRowKind(row, "E") { assert RowDeps(typ, row)[1..] == []; }
  }

  lemma {:induction false} RowsAreAdded(m: Marks, typ: Kind, rows: seq<seq<string>>)
    ensures AddRows(m, typ, rows) == AddAll(m, AnswerDeps(typ, Rows(rows)))
    decreases |rows|
  {
    if rows != [] {
      RowIsAdded(m, typ, rows[0]);
      RowsAreAdded(AddRow(m, typ, rows[0]), typ, rows[1..]);
      AddAllAppend(m, RowDeps(typ, rows[0]), AnswerDeps(typ, Rows(rows[1..])));
    }
  }

  lemma {:induction false} ClassesAreAdded(m: Marks, names: seq<string>, classes: map<string, UseType>)
    ensures AddClassified(m, names, classes) == AddAll(m, ClassDeps(names, classes))
    decreases |names|
  {
    if names != [] {
      var d := Dep(Node(TABL, names[0]), UseTypeOf(classes, names[0]));
      ClassesAreAdded(AddOne(m, d), names[1..], classes);
      assert ClassDeps(names, classes)[1..] == ClassDeps(names[1..], classes);
    }
  }

  /** A query that was answered 401. */
  predicate IsRejected(ask: Ask, typ: Kind, chunk: seq<string>) { ask(typ, chunk) == Unauthorized }

  /** A query that failed or was cut off: one warning each. */
  predicate Warns(ask: Ask, typ: Kind, chunk: seq<string>) {
    ask(typ, chunk) == Failed
    || (typ == TABL && ask(typ, chunk).Rows? && |ask(typ, chunk).rows| >= 2000)
  }

  function Warnings(ask: Ask, typ: Kind, chunks: seq<seq<string>>): nat {
    if chunks == [] then 0 else (if Warns(ask, typ, chunks[0]) then 1 else 0) + Warnings(ask, typ, chunks[1..])
  }

  predicate SomeRejected(ask: Ask, typ: Kind, chunks: seq<seq<string>>) {
    exists i :: 0 <= i < |chunks| && IsRejected(ask, typ, chunks[i])
  }

  predicate SomeUnclassified(classify: Classify, chunks: seq<seq<string>>) {
    exists i :: 0 <= i < |chunks| && IsUnclassified(classify, chunks[i])
  }

  predicate IsUnclassified(classify: Classify, chunk: seq<string>) { classify(chunk).None? }

  /** What the queries of one type make of the state. */
  ghost predicate ChunksSay(s: State, s': State, ask: Ask, typ: Kind, chunks: seq<seq<string>>) {
    && (s'.rejected <==> s.rejected || SomeRejected(ask, typ, chunks))
    && (!s'.rejected ==>
          && s'.marks == AddAll(s.marks, ChunksDeps(ask, typ, chunks))
          && s'.warnings == s.warnings + Warnings(ask, typ, chunks))
  }

  lemma {:induction false} SomeRejectedCons(ask: Ask, typ: Kind, chunks: seq<seq<string>>)
    requires chunks != []
    ensures SomeRejected(ask, typ, chunks) <==>
            IsRejected(ask, typ, chunks[0]) || SomeRejected(ask, typ, chunks[1..])
  {
    if i :| 0 <= i < |chunks[1..]| && IsRejected(ask, typ, chunks[1..][i]) {
      assert IsRejected(ask, typ, chunks[i + 1]);
    }
    if i :| 0 <= i < |chunks| && IsRejected(ask, typ, chunks[i]) {
      assert i > 0 ==> chunks[1..][i - 1] == chunks[i];
    }
  }

  lemma {:induction false} SomeUnclassifiedCons(classify: Classify, chunks: seq<seq<string>>)
    requires chunks != []
    ensures SomeUnclassified(classify, chunks) <==>
            IsUnclassified(classify, chunks[0]) || SomeUnclassified(classify, chunks[1..])
  {
    if i :| 0 <= i < |chunks[1..]| && IsUnclassified(classify, chunks[1..][i]) {
      assert IsUnclassified(classify, chunks[i + 1]);
    }
    if i :| 0 <= i < |chunks| && IsUnclassified(classify, chunks[i]) {
      assert i > 0 ==> chunks[1..][i - 1] == chunks[i];
    }
  }

  lemma {:induction false} ChunksAreTold(s: State, ask: Ask, typ: Kind, chunks: seq<seq<string>>)
    ensures ChunksSay(s, AskChunks(s, ask, typ, chunks), ask, typ, chunks)
    decreases |chunks|
  {
    if chunks != [] && !s.rejected {
      var answer := ask(typ, chunks[0]);
      var s1 := Answered(s, typ, answer);
      SomeRejectedCons(ask, typ, chunks);
      ChunksAreTold(s1, ask, typ, chunks[1..]);
      if answer.Rows? {
        RowsAreAdded(s.marks, typ, answer.rows);
      }
      AddAllAppend(s.marks, AnswerDeps(typ, answer), ChunksDeps(ask, typ, chunks[1..]));
    }
  }

  lemma {:induction false} ClassesAreTold(s: State, classify: Classify, chunks: seq<seq<string>>)
    ensures var s' := ClassifyChunks(s, classify, chunks);
            && (s'.rejected <==> s.rejected || SomeUnclassified(classify, chunks))
            && s'.warnings == s.warnings
            && (!s'.rejected ==> s'.marks == AddAll(s.marks, AllClassDeps(classify, chunks)))
    decreases |chunks|
  {
    if chunks != [] && !s.rejected {
      SomeUnclassifiedCons(classify, chunks);
      ClassesAreTold(ClassifyOne(s, classify, chunks[0]), classify, chunks[1..]);
      if classify(chunks[0]).Some? {
        ClassesAreAdded(s.marks, chunks[0], classify(chunks[0]).value);
        AddAllAppend(s.marks, ClassDeps(chunks[0], classify(chunks[0]).value), AllClassDeps(classify, chunks[1..]));
      }
    }
  }

  /** A query of one type, or a classification that follows it, is answered 401. */
  predicate TypeRejected(ask: Ask, classify: Classify, typ: Kind, names: seq<string>) {
    var chunks := Chunks(names, DDIC_IN_LIST_MAX_BYTES);
    SomeRejected(ask, typ, chunks)
    || SomeUnclassified(classify, Chunks(ChunksStructures(ask, typ, chunks), DDIC_IN_LIST_MAX_BYTES))
  }

  predicate LevelRejected(ask: Ask, classify: Classify, current: seq<Node>, kinds: seq<Kind>) {
    exists i :: 0 <= i < |kinds| && TypeRejected(ask, classify, kinds[i], NamesOf(current, kinds[i]))
  }

  function LevelWarnings(ask: Ask, current: seq<Node>, kinds: seq<Kind>): nat {
    if kinds == [] then 0
    else Warnings(ask, kinds[0], Chunks(NamesOf(current, kinds[0]), DDIC_IN_LIST_MAX_BYTES))
         + LevelWarnings(ask, current, kinds[1..])
  }

  /** What a level makes of the state: it is rejected exactly when a query or a classification is
      answered 401; otherwise it has added everything the answers name, one by one, and one warning for
      each query that failed or was cut off. */
  ghost predicate LevelSays(s: State, s': State, ask: Ask, classify: Classify, current: seq<Node>, kinds: seq<Kind>) {
    && (s'.rejected <==> s.rejected || LevelRejected(ask, classify, current, kinds))
    && (!s'.rejected ==>
          && s'.marks == AddAll(s.marks, LevelDeps(ask, classify, current, kinds))
          && s'.warnings == s.warnings + LevelWarnings(ask, current, kinds))
  }

  lemma {:induction false} TypeIsTold(s: State, ask: Ask, classify: Classify, typ: Kind, names: seq<string>)
    ensures var s' := AskType(s, ask, classify, typ, names);
            && (s'.rejected <==> s.rejected || TypeRejected(ask, classify, typ, names))
            && (!s'.rejected ==>
                  && s'.marks == AddAll(s.marks, TypeDeps(ask, classify, typ, names))
                  && s'.warnings == s.warnings + Warnings(ask, typ, Chunks(names, DDIC_IN_LIST_MAX_BYTES)))
  {
    var chunks := Chunks(names, DDIC_IN_LIST_MAX_BYTES);
    var s1 := AskChunks(s, ask, typ, chunks);
    var clsChunks := Chunks(ChunksStructures(ask, typ, chunks), DDIC_IN_LIST_MAX_BYTES);
    ChunksAreTold(s, ask, typ, chunks);
    ClassesAreTold(s1, classify, clsChunks);
    AddAllAppend(s.marks, ChunksDeps(ask, typ, chunks), AllClassDeps(classify, clsChunks));
  }

  lemma {:induction false} LevelIsTold(s: State, ask: Ask, classify: Classify, current: seq<Node>, kinds: seq<Kind>)
    ensures LevelSays(s, AskLevel(s, ask, classify, current, kinds), ask, classify, current, kinds)
    decreases |kinds|
  {
    if kinds != [] && !s.rejected {
      var names := NamesOf(current, kinds[0]);
      TypeIsTold(s, ask, classify, kinds[0], names);
      LevelIsTold(AskType(s, ask, classify, kinds[0], names), ask, classify, current, kinds[1..]);
      AddAllAppend(s.marks, TypeDeps(ask, classify, kinds[0], names), LevelDeps(ask, classify, current, kinds[1..]));
      LevelRejectedCons(ask, classify, current, kinds);
    }
  }

  lemma {:induction false} LevelRejectedCons(ask: Ask, classify: Classify, current: seq<Node>, kinds: seq<Kind>)
    requires kinds != []
    ensures LevelRejected(ask, classify, current, kinds) <==>
            TypeRejected(ask, classify, kinds[0], NamesOf(current, kinds[0]))
            || LevelRejected(ask, classify, current, kinds[1..])
  {
    if i :| 0 <= i < |kinds[1..]| && TypeRejected(ask, classify, kinds[1..][i], NamesOf(current, kinds[1..][i])) {
      assert kinds[i + 1] == kinds[1..][i];
    }
    if i :| 0 <= i < |kinds| && TypeRejected(ask, classify, kinds[i], NamesOf(current, kinds[i])) {
      assert i > 0 ==> kinds[1..][i - 1] == kinds[i];
    }
  }

  /** d is the first of ds to name its node, and the node was not visited. */
  predicate IsFirstNew(visited: set<string>, ds: seq<Dep>, i: nat)
    requires i < |ds|
  {
    ds[i].node.name != "" && Key(ds[i].node) !in visited && forall j | 0 <= j < i :: ds[j].node != ds[i].node
  }

  /** idx has, in order, the places at which ds names new nodes. */
  ghost predicate AreFirstNew(visited: set<string>, ds: seq<Dep>, idx: seq<nat>) {
    && (forall k, l | 0 <= k < l < |idx| :: idx[k] < idx[l])
    && (forall i :: i in idx <==> 0 <= i < |ds| && IsFirstNew(visited, ds, i))
  }

  ghost predicate DepsPicked(added: seq<Dep>, ds: seq<Dep>, idx: seq<nat>) {
    |idx| == |added| && forall k {:trigger idx[k]} | 0 <= k < |idx| :: idx[k] < |ds| && added[k] == ds[idx[k]]
  }

  lemma {:induction false} FirstNewSnoc(visited: set<string>, ds: seq<Dep>, d: Dep, i: nat)
    requires i <= |ds|
    ensures IsFirstNew(visited, ds + [d], i) <==>
            if i < |ds| then IsFirstNew(visited, ds, i)
            else d.node.name != "" && Key(d.node) !in visited && forall j | 0 <= j < |ds| :: ds[j].node != d.node
  {
    var more := ds + [d];
    assert more[|ds|] == d && forall j | 0 <= j < |ds| :: more[j] == ds[j];
  }

  lemma {:induction false} AddAllVisits(m: Marks, ds: seq<Dep>, n: Node)
    ensures Key(n) in AddAll(m, ds).visited <==>
            Key(n) in m.visited || (n.name != "" && exists j :: 0 <= j < |ds| && ds[j].node == n)
    decreases |ds|
  {
    if ds != [] {
      var n0 := |ds| - 1;
      var before := AddAll(m, ds[..n0]);
      AddAllVisits(m, ds[..n0], n);
      AddAllAppend(m, ds[..n0], [ds[n0]]);
      assert ds[..n0] + [ds[n0]] == ds && [ds[n0]][1..] == [];
      assert AddAll(before, [ds[n0]]) == AddOne(before, ds[n0]);
      KeyIsInjective(n, ds[n0].node);
      if j :| 0 <= j < |ds| && ds[j].node == n {
        assert j < n0 ==> ds[..n0][j] == ds[j];
      }
      if j :| 0 <= j < n0 && ds[..n0][j].node == n {
        assert ds[j].node == n;
      }
    }
  }

  /** Adding one by one adds the first mention of every new node, with its use type. */
  lemma {:induction false} AddAllPicksFirst(m: Marks, ds: seq<Dep>) returns (idx: seq<nat>)
    ensures m.deps <= AddAll(m, ds).deps && AreFirstNew(m.visited, ds, idx)
    ensures DepsPicked(AddAll(m, ds).deps[|m.deps|..], ds, idx)
    decreases |ds|
  {
    if ds == [] {
      idx := [];
    } else {
      var n := |ds| - 1;
      var some, d := ds[..n], ds[n];
      idx := AddAllPicksFirst(m, some);
      AddAllAppend(m, some, [d]);
      assert some + [d] == ds && [d][1..] == [];
      var before := AddAll(m, some);
      assert AddAll(m, ds) == AddOne(before, d);
      AddAllVisits(m, some, d.node);
      forall i | 0 <= i < n ensures IsFirstNew(m.visited, ds, i) == IsFirstNew(m.visited, some, i) {
        FirstNewSnoc(m.visited, some, d, i);
      }
      FirstNewSnoc(m.visited, some, d, n);
      if IsFirstNew(m.visited, ds, n) {
        idx := PickOneMore(m, some, d, idx);
      }
    }
  }

  lemma {:induction false} PickOneMore(m: Marks, ds: seq<Dep>, d: Dep, idx: seq<nat>) returns (more: seq<nat>)
    requires m.deps <= AddAll(m, ds).deps && AreFirstNew(m.visited, ds, idx)
    requires DepsPicked(AddAll(m, ds).deps[|m.deps|..], ds, idx)
    requires IsFirstNew(m.visited, ds + [d], |ds|)
    requires forall i | 0 <= i < |ds| :: IsFirstNew(m.visited, ds + [d], i) == IsFirstNew(m.visited, ds, i)
    ensures AreFirstNew(m.visited, ds + [d], more)
    ensures DepsPicked((AddAll(m, ds).deps + [d])[|m.deps|..], ds + [d], more)
  {
    more := idx + [|ds|];
    var added := AddAll(m, ds).deps[|m.deps|..];
    assert (AddAll(m, ds).deps + [d])[|m.deps|..] == added + [d];
    forall k {:trigger more[k]} | 0 <= k < |more|
      ensures more[k] < |ds| + 1 && (added + [d])[k] == (ds + [d])[more[k]]
    {
      assert k < |idx| ==> idx[k] in idx;
    }
    forall k, l | 0 <= k < l < |more| ensures more[k] < more[l] {
      assert idx[k] in idx;
    }
    forall i ensures i in more <==> 0 <= i < |ds + [d]| && IsFirstNew(m.visited, ds + [d], i) {
      assert more[|idx|] == |ds|;
      assert i in more <==> i in idx || i == |ds|;
    }
  }

  /** What one level adds to the result: the first mention of every node that was not visited, in the
      order of the answers, with the use type of that mention. */
  lemma {:induction false} LevelAddsFirstMentions(s: State, ask: Ask, classify: Classify, current: seq<Node>,
                                                  kinds: seq<Kind>) returns (idx: seq<nat>)
    requires !AskLevel(s, ask, classify, current, kinds).rejected
    ensures var s', ds := AskLevel(s, ask, classify, current, kinds), LevelDeps(ask, classify, current, kinds);
            && s.marks.deps <= s'.marks.deps && AreFirstNew(s.marks.visited, ds, idx)
            && DepsPicked(s'.marks.deps[|s.marks.deps|..], ds, idx)
            && s'.warnings == s.warnings + LevelWarnings(ask, current, kinds)
  {
    LevelIsTold(s, ask, classify, current, kinds);
    idx := AddAllPicksFirst(s.marks, LevelDeps(ask, classify, current, kinds));
  }

  /** Where a use type comes from. */
  ghost predicate IsFounded(d: Dep, classify: Classify) {
    match d.node.typ
    case DTEL => d.useType == DATA_ELEMENT
    case DOMA => d.useType == DOMAIN
    case TTYP => false
    case TABL => d.useType == TABLE || IsClassified(d, classify)
  }

  /** Some classification that was asked for the name gives this use type. */
  ghost predicate IsClassified(d: Dep, classify: Classify) {
    exists chunk :: d.node.name in chunk && classify(chunk).Some?
                    && d.useType == UseTypeOf(classify(chunk).value, d.node.name)
  }

  ghost predicate AllFounded(ds: seq<Dep>, classify: Classify) { forall d | d in ds :: IsFounded(d, classify) }

  lemma {:induction false} ChunksDepsFounded(ask: Ask, typ: Kind, chunks: seq<seq<string>>, classify: Classify)
    ensures AllFounded(ChunksDeps(ask, typ, chunks), classify)
  {
    if chunks != [] {
      ChunksDepsFounded(ask, typ, chunks[1..], classify);
      if ask(typ, chunks[0]).Rows? {
        RowsDepsFounded(typ, ask(typ, chunks[0]).rows, classify);
      }
    }
  }

  lemma {:induction false} RowsDepsFounded(typ: Kind, rows: seq<seq<string>>, classify: Classify)
    ensures AllFounded(AnswerDeps(typ, Rows(rows)), classify)
  {
    if rows != [] {
      RowsDepsFounded(typ, rows[1..], classify);
      assert AllFounded(RowDeps(typ, rows[0]), classify);
      assert AnswerDeps(typ, Rows(rows)) == RowDeps(typ, rows[0]) + AnswerDeps(typ, Rows(rows[1..]));
    }
  }

  lemma {:induction false} ClassDepsFounded(names: seq<string>, chunk: seq<string>, classify: Classify)
    requires classify(chunk).Some? && forall n | n in names :: n in chunk
    ensures AllFounded(ClassDeps(names, classify(chunk).value), classify)
  {
    if names != [] {
      ClassDepsFounded(names[1..], chunk, classify);
      assert IsClassified(Dep(Node(TABL, names[0]), UseTypeOf(classify(chunk).value, names[0])), classify);
    }
  }

  lemma {:induction false} AllClassDepsFounded(classify: Classify, chunks: seq<seq<string>>)
    ensures AllFounded(AllClassDeps(classify, chunks), classify)
  {
    if chunks != [] {
      AllClassDepsFounded(classify, chunks[1..]);
      if classify(chunks[0]).Some? {
        ClassDepsFounded(chunks[0], chunks[0], classify);
      }
    }
  }

  lemma {:induction false} LevelDepsFounded(ask: Ask, classify: Classify, current: seq<Node>, kinds: seq<Kind>)
    ensures AllFounded(LevelDeps(ask, classify, current, kinds), classify)
  {
    if kinds != [] {
      var chunks := Chunks(NamesOf(current, kinds[0]), DDIC_IN_LIST_MAX_BYTES);
      ChunksDepsFounded(ask, kinds[0], chunks, classify);
      AllClassDepsFounded(classify, Chunks(ChunksStructures(ask, kinds[0], chunks), DDIC_IN_LIST_MAX_BYTES));
      LevelDepsFounded(ask, classify, current, kinds[1..]);
    }
  }

  lemma {:induction false} AddAllFounded(m: Marks, ds: seq<Dep>, classify: Classify)
    requires AllFounded(m.deps, classify) && AllFounded(ds, classify)
    ensures AllFounded(AddAll(m, ds).deps, classify)
    decreases |ds|
  {
    if ds != [] {
      AddAllFounded(AddOne(m, ds[0]), ds[1..], classify);
    }
  }

  lemma {:induction false} LevelFounded(ask: Ask, classify: Classify, kinds: seq<Kind>, s: State, current: seq<Node>)
    requires AllFounded(s.marks.deps, classify) && !Level(ask, classify, kinds)(s, current).rejected
    ensures AllFounded(Level(ask, classify, kinds)(s, current).marks.deps, classify)
  {
    var s0 := s.(marks := s.marks.(next := []));
    LevelIsTold(s0, ask, classify, current, kinds);
    LevelDepsFounded(ask, classify, current, kinds);
    AddAllFounded(s0.marks, LevelDeps(ask, classify, current, kinds), classify);
  }

  lemma {:induction false} WalkFounded(ask: Ask, classify: Classify, kinds: seq<Kind>, s: State, current: seq<Node>,
                                       depth: nat)
    requires AllFounded(s.marks.deps, classify)
    requires !WalkFrom(Level(ask, classify, kinds), s, current, depth).rejected
    ensures AllFounded(WalkFrom(Level(ask, classify, kinds), s, current, depth).marks.deps, classify)
    decreases depth
  {
    if depth > 0 && current != [] && !s.rejected {
      var s1 := Level(ask, classify, kinds)(s, current);
      if !s1.rejected {
        LevelFounded(ask, classify, kinds, s, current);
        WalkFounded(ask, classify, kinds, s1, s1.marks.next, depth - 1);
      }
    }
  }

  /** Whatever the answers: data elements and domains are reported as such, no table type is reported,
      and a table with the use type TABLE, or one that a classification of its name gave. */
  lemma UseTypesAreFounded(ask: Ask, classify: Classify, start: Node, maxDepth: nat)
    requires WalkResult(start, maxDepth, ask, classify).Walked?
    ensures AllFounded(WalkResult(start, maxDepth, ask, classify).deps, classify)
  {
    WalkFounded(ask, classify, KINDS, Start(start), [start], maxDepth);
  }
}
