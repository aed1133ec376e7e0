/** The bulk export: a dataset walked in keyset batches while others insert, delete and change its
    rows, and the JSON envelope that frames what was written (backend/src/routes/data.ts). */
module KeysetExport {
  import opened Options
  import opened Sequences
  import opened Text

  /** Rows by key. A row is its JSON text. */
  type Table = map<int, string>

  datatype Row = Row(id: int, text: string)

  predicate Past(id: int, after: Option<int>) { after.None? || after.value < id }

  function KeysPast(table: Table, after: Option<int>): set<int> {
    set id | id in table && Past(id, after)
  }

  lemma LeastExists(keys: set<int>)
    requires keys != {}
    ensures exists m :: m in keys && forall k :: k in keys ==> m <= k
  {
    var least := LeastMember(keys);
  }

  lemma {:induction false} LeastMember(keys: set<int>) returns (least: int)
    requires keys != {}
    ensures least in keys && forall k :: k in keys ==> least <= k
  {
    var x := SomeMember(keys);
    var rest := keys - {x};
    assert keys == rest + {x};
    if rest == {} {
      least := x;
    } else {
      var m := LeastMember(rest);
      least := if m < x then m else x;
    }
  }

  function Least(keys: set<int>): (m: int)
    requires keys != {}
    ensures m in keys && forall k :: k in keys ==> m <= k
  {
    LeastExists(keys);
    var m :| m in keys && forall k :: k in keys ==> m <= k;
    m
  }

  /** `readBatch`: the first `size` rows with a key past `after`, in key order. */
  function ReadBatch(table: Table, after: Option<int>, size: nat): seq<Row>
    decreases size
  {
    var keys := KeysPast(table, after);
    if size == 0 || keys == {} then []
    else var id := Least(keys); [Row(id, table[id])] + ReadBatch(table, Some(id), size - 1)
  }

  /** A batch holds rows of the table past the resume point, in increasing order. */
  ghost predicate BatchSound(table: Table, after: Option<int>, rows: seq<Row>) {
    && (forall k :: 0 <= k < |rows| ==>
          Past(rows[k].id, after) && rows[k].id in table && table[rows[k].id] == rows[k].text)
    && Increasing(rows)
  }

  /** A batch skips no key up to its last; it is empty only when nothing is left. */
  ghost predicate BatchFull(table: Table, after: Option<int>, rows: seq<Row>) {
    forall id :: id in table && Past(id, after) && (rows != [] ==> id <= rows[|rows| - 1].id) ==> Holds(rows, id)
  }

  ghost predicate Increasing(rows: seq<Row>) {
    forall j, k :: 0 <= j < k < |rows| ==> rows[j].id < rows[k].id
  }

  ghost predicate Holds(rows: seq<Row>, id: int) { exists k :: 0 <= k < |rows| && rows[k].id == id }

  lemma {:induction false} BatchIsSound(table: Table, after: Option<int>, size: nat)
    ensures BatchSound(table, after, ReadBatch(table, after, size))
    decreases size
  {
    var keys := KeysPast(table, after);
    if size > 0 && keys != {} {
      BatchIsSound(table, Some(Least(keys)), size - 1);
    }
  }

  lemma BatchOfSome(table: Table, after: Option<int>, size: nat)
    requires size > 0 && KeysPast(table, after) != {}
    ensures var first := Least(KeysPast(table, after));
            && first in table && Past(first, after)
            && (forall id :: id in table && Past(id, after) ==> id == first || Past(id, Some(first)))
            && ReadBatch(table, after, size) == [Row(first, table[first])] + ReadBatch(table, Some(first), size - 1)
  {
    var keys := KeysPast(table, after);
    forall id | id in table && Past(id, after) ensures id == Least(keys) || Past(id, Some(Least(keys))) {
      assert id in keys;
    }
  }

  lemma BatchOfNone(table: Table, after: Option<int>, size: nat)
    requires size > 0 && KeysPast(table, after) == {}
    ensures ReadBatch(table, after, size) == [] && forall id :: id in table ==> !Past(id, after)
  {
    forall id | id in table ensures !Past(id, after) {
      assert id !in KeysPast(table, after);
    }
  }

  lemma HoldsAfterFirst(first: Row, rest: seq<Row>, id: int)
    ensures Holds([first] + rest, id) <==> first.id == id || Holds(rest, id)
  {
    var rows := [first] + rest;
    if Holds(rest, id) {
      var k :| 0 <= k < |rest| && rest[k].id == id;
      assert rows[k + 1].id == id;
    }
    if first.id == id {
      assert rows[0].id == id;
    }
    if Holds(rows, id) {
      var k :| 0 <= k < |rows| && rows[k].id == id;
      assert k > 0 ==> rest[k - 1].id == id;
    }
  }

  /** A batch is no longer than asked for, skips no key up to its last, and when it is shorter nothing is
      left beyond it. */
  lemma {:induction false} BatchIsFull(table: Table, after: Option<int>, size: nat)
    requires size > 0
    ensures var rows := ReadBatch(table, after, size);
            && BatchFull(table, after, rows) && |rows| <= size
            && (|rows| < size ==> forall id :: id in table && Past(id, after) ==> Holds(rows, id))
    decreases size
  {
    hide ReadBatch, Least, Holds;
    if KeysPast(table, after) == {} {
      BatchOfNone(table, after, size);
    } else {
      BatchOfSome(table, after, size);
      hide KeysPast;
      var first := Least(KeysPast(table, after));
      var rest, rows := ReadBatch(table, Some(first), size - 1), ReadBatch(table, after, size);
      if size > 1 {
        BatchIsFull(table, Some(first), size - 1);
      } else {
        NoBatch(table, Some(first));
      }
      forall id | id in table && Past(id, after) && (id <= rows[|rows| - 1].id || |rows| < size)
        ensures Holds(rows, id)
      {
        HoldsAfterFirst(Row(first, table[first]), rest, id);
      }
    }
  }

  lemma NoBatch(table: Table, after: Option<int>)
    ensures ReadBatch(table, after, 0) == []
  {
  }

  // ---- the envelope ---------------------------------------------------------------------

  /** What the JSON emitter writes for one row. */
  function Frame(text: string, index: nat): string { (if index == 0 then "" else ",") + "\n" + text }

  /** What it writes for a run of rows. */
  function Frames(rows: seq<Row>): string {
    if rows == [] then "" else Frames(rows[..|rows| - 1]) + Frame(rows[|rows| - 1].text, |rows| - 1)
  }

  lemma FramesAppend(rows: seq<Row>, row: Row)
    ensures Frames(rows + [row]) == Frames(rows) + Frame(row.text, |rows|)
  {
    assert (rows + [row])[..|rows|] == rows;
  }

  /** A response being written: its body so far, and the rows handed to `emit`. */
  class Response {
    const head: string
    var body: string
    ghost var emitted: seq<Row>

    constructor (head: string)
      ensures Framed() && emitted == [] && this.head == head
    {
      this.head, body, emitted := head, head, [];
    }

    /** The body is the head and then exactly the frames of the rows emitted. */
    ghost predicate Framed()
      reads this
    {
      body == head + Frames(emitted)
    }

    method Write(chunk: string)
      modifies this`body
      ensures body == old(body) + chunk
    {
      body := body + chunk;
    }

    method Emit(row: Row, index: nat)
      requires Framed() && index == |emitted|
      modifies this`body, this`emitted
      ensures Framed() && emitted == old(emitted) + [row]
    {
      FramesAppend(emitted, row);
      body := body + Frame(row.text, index);
      emitted := emitted + [row];
    }
  }

  // ---- the walk ---------------------------------------------------------------------------

  /** A row stood in the table, as emitted, when batch `t` was read. */
  ghost predicate StoodAt(row: Row, tables: nat -> Table, t: nat) {
    row.id in tables(t) && tables(t)[row.id] == row.text
  }

  /** Every emitted row stood in the table, as emitted, at some batch already read. */
  ghost predicate FromTables(rows: seq<Row>, tables: nat -> Table, batches: nat) {
    forall row :: row in rows ==> exists t: nat :: t < batches && StoodAt(row, tables, t)
  }

  /** Every id in the table at each of the batches read, up to the resume point, has been emitted. */
  ghost predicate CoversSteady(rows: seq<Row>, tables: nat -> Table, batches: nat, after: Option<int>) {
    forall id :: (forall t: nat :: t < batches ==> id in tables(t)) && !Past(id, after) ==> Holds(rows, id)
  }

  /** What is true between two batches. */
  ghost predicate Walked(rows: seq<Row>, tables: nat -> Table, batches: nat, after: Option<int>) {
    && Increasing(rows)
    && (forall k :: 0 <= k < |rows| ==> !Past(rows[k].id, after))
    && FromTables(rows, tables, batches)
    && (after.Some? ==> CoversSteady(rows, tables, batches, after))
  }

  lemma IncreasingStep(rows: seq<Row>, table: Table, after: Option<int>, size: nat)
    requires Increasing(rows) && (forall k :: 0 <= k < |rows| ==> !Past(rows[k].id, after))
    requires size > 0 && ReadBatch(table, after, size) != []
    ensures var batch := ReadBatch(table, after, size);
            Increasing(rows + batch) &&
            forall k :: 0 <= k < |rows + batch| ==> !Past((rows + batch)[k].id, Some(batch[|batch| - 1].id))
  {
    BatchIsSound(table, after, size);
    var batch := ReadBatch(table, after, size);
    assert forall k :: 0 <= k < |batch| ==> batch[k].id <= batch[|batch| - 1].id && Past(batch[k].id, after);
  }

  lemma FromTablesStep(rows: seq<Row>, tables: nat -> Table, n: nat, after: Option<int>, size: nat)
    requires FromTables(rows, tables, n) && size > 0
    ensures FromTables(rows + ReadBatch(tables(n), after, size), tables, n + 1)
  {
    BatchIsSound(tables(n), after, size);
    var batch := ReadBatch(tables(n), after, size);
    forall row | row in rows + batch ensures exists t: nat :: t < n + 1 && StoodAt(row, tables, t) {
      if row in batch {
        assert StoodAt(row, tables, n);
      } else {
        var t: nat :| t < n && StoodAt(row, tables, t);
      }
    }
  }

  lemma HoldsMore(rows: seq<Row>, more: seq<Row>, id: int)
    ensures Holds(rows + more, id) <==> Holds(rows, id) || Holds(more, id)
  {
    if Holds(rows, id) {
      var k :| 0 <= k < |rows| && rows[k].id == id;
      assert (rows + more)[k].id == id;
    }
    if Holds(more, id) {
      var k :| 0 <= k < |more| && more[k].id == id;
      assert (rows + more)[|rows| + k].id == id;
    }
    if Holds(rows + more, id) {
      var k :| 0 <= k < |rows + more| && (rows + more)[k].id == id;
      assert k < |rows| ==> rows[k].id == id;
      assert k >= |rows| ==> more[k - |rows|].id == id;
    }
  }

  lemma CoversStep(rows: seq<Row>, tables: nat -> Table, n: nat, after: Option<int>, size: nat)
    requires after.Some? ==> CoversSteady(rows, tables, n, after)
    requires size > 0 && ReadBatch(tables(n), after, size) != []
    ensures var batch := ReadBatch(tables(n), after, size);
            CoversSteady(rows + batch, tables, n + 1, Some(batch[|batch| - 1].id))
  {
    BatchIsFull(tables(n), after, size);
    var batch := ReadBatch(tables(n), after, size);
    var last := batch[|batch| - 1].id;
    forall id | (forall t: nat :: t < n + 1 ==> id in tables(t)) && !Past(id, Some(last))
      ensures Holds(rows + batch, id)
    {
      assert id in tables(n);
      HoldsMore(rows, batch, id);
    }
  }

  lemma WalkedStep(rows: seq<Row>, tables: nat -> Table, n: nat, after: Option<int>, size: nat)
    requires Walked(rows, tables, n, after) && size > 0
    requires ReadBatch(tables(n), after, size) != []
    ensures var batch := ReadBatch(tables(n), after, size);
            Walked(rows + batch, tables, n + 1, Some(batch[|batch| - 1].id))
  {
    IncreasingStep(rows, tables(n), after, size);
    FromTablesStep(rows, tables, n, after, size);
    CoversStep(rows, tables, n, after, size);
  }

  /** Hands one batch to `emit`, row by row. */
  method EmitBatch(res: Response, rows: seq<Row>, written: nat) returns (now: nat)
    requires res.Framed() && written == |res.emitted|
    modifies res`body, res`emitted
    ensures res.Framed() && res.emitted == old(res.emitted) + rows && now == |res.emitted|
  {
    now := written;
    for k := 0 to |rows|
      invariant res.Framed() && res.emitted == old(res.emitted) + rows[..k] && now == |res.emitted|
    {
      res.Emit(rows[k], now);
      now := now + 1;
    }
    assert rows[..|rows|] == rows;
  }

  /** The ids that could still be emitted. */
  ghost function Remaining(universe: set<int>, after: Option<int>): set<int> {
    set id | id in universe && Past(id, after)
  }

  /** `streamDataset` over a table that is `tables(t)` when batch t is read, each one arbitrary.
      Emitted ids are strictly increasing, so no row comes out twice; every id present in all of the
      batches' tables comes out; nothing comes out that was never there; the count is the number of
      rows written; and the walk ends because only finitely many ids ever exist. */
  method StreamDataset(res: Response, tables: nat -> Table, size: nat, ghost universe: set<int>)
    returns (written: nat, batches: nat)
    requires size >= 1
    requires forall t: nat :: tables(t).Keys <= universe
    requires res.emitted == [] && res.Framed()
    modifies res`body, res`emitted
    ensures res.Framed() && written == |res.emitted|
    ensures Increasing(res.emitted)
    ensures FromTables(res.emitted, tables, batches)
    ensures batches > 0
    ensures forall id :: (forall t: nat :: t < batches ==> id in tables(t)) ==> Holds(res.emitted, id)
  {
    var after: Option<int> := None;
    written, batches := 0, 0;
    while true
      invariant res.Framed() && written == |res.emitted|
      invariant Walked(res.emitted, tables, batches, after)
      decreases Remaining(universe, after)
    {
      var rows := ReadBatch(tables(batches), after, size);
      if |rows| == 0 {
        WalkedEnd(res.emitted, tables, batches, after, size);
        batches := batches + 1;
        return;
      }
      WalkedStep(res.emitted, tables, batches, after, size);
      KeysRunOut(universe, tables(batches), after, size);
      written := EmitBatch(res, rows, written);
      after := Some(rows[|rows| - 1].id);
      batches := batches + 1;
    }
  }

  lemma WalkedEnd(rows: seq<Row>, tables: nat -> Table, n: nat, after: Option<int>, size: nat)
    requires Walked(rows, tables, n, after) && size > 0 && ReadBatch(tables(n), after, size) == []
    ensures FromTables(rows, tables, n + 1)
    ensures forall id :: (forall t: nat :: t < n + 1 ==> id in tables(t)) ==> Holds(rows, id)
  {
    BatchIsSound(tables(n), after, size);
    BatchIsFull(tables(n), after, size);
    forall row | row in rows ensures exists t: nat :: t < n + 1 && StoodAt(row, tables, t) {
      var t: nat :| t < n && StoodAt(row, tables, t);
    }
    forall id | forall t: nat :: t < n + 1 ==> id in tables(t) ensures Holds(rows, id) {
      assert id in tables(n);
    }
  }

  lemma KeysRunOut(universe: set<int>, table: Table, after: Option<int>, size: nat)
    requires table.Keys <= universe && size > 0 && ReadBatch(table, after, size) != []
    ensures var rows := ReadBatch(table, after, size);
            Remaining(universe, Some(rows[|rows| - 1].id)) < Remaining(universe, after)
  {
    BatchIsSound(table, after, size);
    var rows := ReadBatch(table, after, size);
    var last := rows[|rows| - 1].id;
    var before, now := Remaining(universe, after), Remaining(universe, Some(last));
    assert last in table.Keys && last in before && last !in now;
    assert now <= before;
  }

  /** The whole JSON response: the envelope's head, the rows, and a tail that publishes the count. Its rows
      are those of the walk: each id once and in order, each one from the table, and every row that stood
      there throughout. */
  method ExportJson(head: string, show: nat -> string, tables: nat -> Table, size: nat, ghost universe: set<int>)
    returns (res: Response, batches: nat)
    requires size >= 1
    requires forall t: nat :: tables(t).Keys <= universe
    ensures fresh(res)
    ensures res.body == head + Frames(res.emitted) + "\n],\"row_count\":" + show(|res.emitted|) + "}\n"
    ensures Increasing(res.emitted) && FromTables(res.emitted, tables, batches)
    ensures batches > 0
    ensures forall id :: (forall t: nat :: t < batches ==> id in tables(t)) ==> Holds(res.emitted, id)
  {
    res := new Response(head);
    var count;
    count, batches := StreamDataset(res, tables, size, universe);
    res.Write("\n],\"row_count\":" + show(count) + "}\n");
  }

  // ---- reading the envelope back --------------------------------------------------------------

  function Texts(rows: seq<Row>): seq<string> { seq(|rows|, k requires 0 <= k < |rows| => rows[k].text) }

  /** Takes the separating comma off every line but the last. */
  function Uncomma(lines: seq<string>): (r: seq<string>)
    ensures |r| == |lines|
  {
    seq(|lines|, k requires 0 <= k < |lines| =>
      if k < |lines| - 1 && lines[k] != [] then lines[k][..|lines[k]| - 1] else lines[k])
  }

  lemma UncommaAt(lines: seq<string>, k: nat, text: string)
    requires k < |lines| && lines[k] == text + (if k < |lines| - 1 then "," else "")
    ensures Uncomma(lines)[k] == text
  {
  }

  /** The rows of a framed stretch: one a line, after the line break that opens it. */
  function RowsRead(framed: string): seq<string> { Uncomma(Split(framed, '\n')[1..]) }

  lemma Reassociate(a: string, b: string, c: string, d: string)
    ensures a + (b + c + d) == a + b + c + d
  {
  }

  lemma FrameSplit(before: string, comma: string, text: string)
    requires '\n' !in text && '\n' !in comma
    ensures Split(before + (comma + "\n" + text), '\n') == WithLast(Split(before, '\n'), comma) + [text]
  {
    hide Split, WithLast;
    Reassociate(before, comma, "\n", text);
    SplitWithout(text, '\n');
    SplitAppend(before, '\n', comma);
    SplitGlued(before + comma, '\n', text);
  }

  lemma FramesSplit(rows: seq<Row>)
    requires rows != [] && '\n' !in rows[|rows| - 1].text
    ensures var n := |rows| - 1;
            Split(Frames(rows), '\n') ==
            WithLast(Split(Frames(rows[..n]), '\n'), if n == 0 then "" else ",") + [rows[n].text]
  {
    hide Split, WithLast;
    var n := |rows| - 1;
    FrameSplit(Frames(rows[..n]), if n == 0 then "" else ",", rows[n].text);
  }

  /** The lines of a framed stretch: an empty one, then one a row, with a comma after all but the last. */
  ghost predicate AreLinesOf(lines: seq<string>, rows: seq<Row>) {
    |lines| == |rows| + 1 &&
    forall k :: 0 <= k < |rows| ==> lines[k + 1] == rows[k].text + (if k < |rows| - 1 then "," else "")
  }

  lemma LinesStep(lines: seq<string>, rows: seq<Row>)
    requires rows != [] && AreLinesOf(lines, rows[..|rows| - 1])
    ensures AreLinesOf(WithLast(lines, if |rows| == 1 then "" else ",") + [rows[|rows| - 1].text], rows)
  {
    var n := |rows| - 1;
    var more := WithLast(lines, if n == 0 then "" else ",") + [rows[n].text];
    forall k | 0 <= k <= n ensures more[k + 1] == rows[k].text + (if k < n then "," else "") {
      assert k < n - 1 ==> more[k + 1] == lines[k + 1] == rows[..n][k].text + ",";
      assert k == n - 1 ==> more[k + 1] == lines[n] + "," && lines[n] == rows[..n][k].text + "";
    }
  }

  lemma {:induction false} FramesLines(rows: seq<Row>)
    requires forall k :: 0 <= k < |rows| ==> '\n' !in rows[k].text
    ensures AreLinesOf(Split(Frames(rows), '\n'), rows)
  {
    if rows == [] {
    } else {
      hide Split, Frames, AreLinesOf, WithLast;
      FramesLines(rows[..|rows| - 1]);
      FramesSplit(rows);
      LinesStep(Split(Frames(rows[..|rows| - 1]), '\n'), rows);
    }
  }

  /** The rows are framed so that they can be read back: when no row's JSON text has a raw line break,
      the lines of the stretch are exactly the rows, in order and in number. */
  lemma FramesReadBack(rows: seq<Row>)
    requires forall k :: 0 <= k < |rows| ==> '\n' !in rows[k].text
    ensures RowsRead(Frames(rows)) == Texts(rows)
  {
    hide Split, Frames, Uncomma;
    FramesLines(rows);
    var lines := Split(Frames(rows), '\n')[1..];
    forall k: nat | k < |rows| ensures Uncomma(lines)[k] == rows[k].text {
      UncommaAt(lines, k, rows[k].text);
    }
  }
}
